/** The way back from what the parser has read to a spelling: every skip that succeeds, every token, attribute and tag that
    is accepted comes from a text of module XmlSyntax. */
module XmlOrigins {
  import opened Options
  import opened Bytes
  import opened Utf8
  import opened Escape
  import opened Names
  import opened XmlTree
  import opened Parser
  import opened Spelling
  import opened XmlSyntax
  import opened ParserStates
  import opened XmlTokens
  import opened XmlTags
  import opened XmlSpelling

  // ---- Skipping ----

  /** White space in front of what `SkipSpace` leaves */
  lemma SpaceOf(s: CString) returns (w: CString)
    ensures IsBlank(w) && s == w + SkipSpace(s) && (SkipSpace(s) == [] || !IsSpace(SkipSpace(s)[0]))
    ensures s != [] && IsSpace(s[0]) ==> w != []
  {
    SkipSpaceLength(s);
    w := s[..|s| - |SkipSpace(s)|];
    BlankIsSpace(w);
  }

  lemma OccursInFront(s: CString, n: nat, key: CString, k: nat)
    requires n <= |s| && k <= |s|
    ensures Occurs(s[..n], key, k) <==> k + |key| <= n && StartsWith(s[k..], key)
  {
    if k + |key| <= n {
      assert s[..n][k..k + |key|] == s[k..][..|key|];
    }
  }

  /** The text up to the first occurrence of `key` ends there. */
  lemma FoundIsEnd(s: CString, key: CString, m: CString)
    requires key != [] && Find(s, key) < |s|
    requires Find(s, key) + |key| <= |s| ==> m == s[..Find(s, key) + |key|]
    ensures Find(s, key) + |key| <= |s| && EndsWithFirst(m, key)
  {
    hide Find, StartsWith, Occurs;
    FindBound(s, key);
    var i := Find(s, key);
    StartsLong(s[i..], key);
    var n := i + |key|;
    OccursInFront(s, n, key, i);
    forall k | 0 <= k < i
      ensures !Occurs(m, key, k)
    {
      OccursInFront(s, n, key, k);
    }
  }

  lemma StartsLong(s: CString, key: CString)
    requires StartsWith(s, key)
    ensures |key| <= |s|
  {
  }

  /** A comment that is skipped is one. */
  lemma RemarkOf(s: CString) returns (m: CString)
    requires StartsWith(s, BEGIN_COMMENT) && SkipComment(s).ok
    ensures IsRemark(m) && s == m + SkipComment(s).rest && m != []
  {
    hide Find, EndsWithFirst;
    DelimitersAgree();
    FindBound(s, END_COMMENT);
    var i := Find(s, END_COMMENT);
    m := s[..i + 3];
    FoundIsEnd(s, END_COMMENT, m);
    assert s[..4][1] == BANG && s[0] == s[..4][0] && s[1] == s[..4][1];
    assert s[i..][..3][0] == DASH && s[i] == s[i..][..3][0];
    assert i >= 2;
    assert m[0..4] == s[..4];
  }

  /** An instruction that is skipped is one. */
  lemma InstructionOf(s: CString) returns (m: CString)
    requires StartsWith(s, BEGIN_PI) && !IsXmlDecl(s) && Find(s, END_PI) < |s|
    ensures IsInstruction(m) && |m| == Find(s, END_PI) + 2 <= |s| && m == s[..|m|] && |m| > 2
    ensures SkipString(s, END_PI) == Skip(true, s[|m|..]) && SkipPI(s) == Skip(true, s[|m|..])
  {
    hide Find, EndsWithFirst;
    DelimitersAgree();
    FindBound(s, END_PI);
    var i := Find(s, END_PI);
    m := s[..i + 2];
    FoundIsEnd(s, END_PI, m);
    assert s[..2][0] == s[0];
    assert s[i..][..2][0] == s[i];
    assert i > 0;
    assert m[0..2] == s[..2];
    if IsDeclaration(m) {
      DeclarationInAnyCase(m, s);
      assert false;
    }
  }

  lemma DeclarationInAnyCase(m: CString, s: CString)
    requires |m| <= |s| && m == s[..|m|] && IsDeclaration(m)
    ensures IsXmlDecl(s)
  {
    DelimitersAgree();
    assert m[..6] == s[..6] && s == s[..6] + s[6..];
    if IsInAnyCase(m[..6], Octets("<?xml ")) {
      CaseIsIgnored(s[..6], Octets("<?xml "), s[6..]);
    } else {
      CaseIsIgnored(s[..6], Octets("<?xml?"), s[6..]);
    }
  }

  lemma MiscTextOf(m: Spaced, ms: seq<Spaced>)
    ensures MiscText([m] + ms) == m.misc + m.space + MiscText(ms)
  {
    assert ([m] + ms)[0] == m && ([m] + ms)[1..] == ms;
  }

  lemma MoreMisc(m: Spaced, ms: seq<Spaced>)
    requires IsMisc(m.misc) && IsBlank(m.space) && AreMisc(ms)
    ensures AreMisc([m] + ms)
  {
    hide IsMisc, IsBlank;
  }

  /** The cases of `SkipMisc`, for text without leading white space */
  lemma SkipMiscCases(s: CString)
    ensures StartsWith(s, BEGIN_COMMENT) ==>
      SkipMisc(s) == if SkipComment(s).ok then SkipMisc(SkipSpace(SkipComment(s).rest))
                     else Skip(false, SkipSpace(SkipComment(s).rest))
    ensures !StartsWith(s, BEGIN_COMMENT) && IsXmlDecl(s) ==> SkipMisc(s) == Skip(false, SkipSpace(s))
    ensures !StartsWith(s, BEGIN_COMMENT) && !IsXmlDecl(s) && StartsWith(s, BEGIN_PI) ==>
      SkipMisc(s) == if SkipString(s, END_PI).ok then SkipMisc(SkipSpace(SkipString(s, END_PI).rest))
                     else Skip(false, SkipSpace(SkipString(s, END_PI).rest))
    ensures !StartsWith(s, BEGIN_COMMENT) && !IsXmlDecl(s) && !StartsWith(s, BEGIN_PI) ==> SkipMisc(s) == Skip(true, SkipSpace(s))
  {
    hide StartsWith, IsXmlDecl, SkipComment, SkipString, SkipSpace;
  }

  /** One comment or instruction at the beginning of text that is skipped */
  lemma FirstMiscOf(s: CString) returns (m: CString, rest: CString)
    requires SkipMisc(s).ok && (StartsWith(s, BEGIN_COMMENT) || StartsWith(s, BEGIN_PI))
    ensures IsMisc(m) && s == m + rest && m != [] && SkipMisc(s) == SkipMisc(SkipSpace(rest))
  {
    hide SkipMisc, Find, SkipSpace, IsXmlDecl, IsRemark, IsInstruction;
    SkipMiscCases(s);
    if StartsWith(s, BEGIN_COMMENT) {
      m := RemarkOf(s);
      rest := SkipComment(s).rest;
    } else {
      FindBound(s, END_PI);
      m := InstructionOf(s);
      rest := s[|m|..];
    }
  }

  /** Comments and instructions that are skipped, where text begins without white space */
  lemma {:induction false} MiscsOf(s: CString) returns (ms: seq<Spaced>)
    requires SkipMisc(s).ok && (s == [] || !IsSpace(s[0]))
    ensures AreMisc(ms) && s == MiscText(ms) + SkipMisc(s).rest
    ensures var p := SkipMisc(s).rest; p != [] ==> IsStop(p)
    decreases |s|
  {
    hide SkipMisc, SkipSpace, StartsWith, IsXmlDecl, IsMisc, MiscText, AreMisc;
    SkipMiscCases(s);
    if StartsWith(s, BEGIN_COMMENT) || StartsWith(s, BEGIN_PI) {
      var m, rest := FirstMiscOf(s);
      var w := SpaceOf(rest);
      SkipSpaceLength(rest);
      ms := MiscsOf(SkipSpace(rest));
      MoreMisc(Spaced(m, w), ms);
      MiscTextOf(Spaced(m, w), ms);
      RegroupFour(m, w, MiscText(ms), SkipMisc(s).rest);
      ms := [Spaced(m, w)] + ms;
    } else {
      ms := [];
      assert SkipSpace(s) == s by { NoSpaceIn(s); }
      NoMiscText();
      assert [] + s == s;
    }
  }

  lemma NoMiscText()
    ensures MiscText([]) == [] && AreMisc([])
  {
  }

  lemma NoSpaceIn(s: CString)
    requires s == [] || !IsSpace(s[0])
    ensures SkipSpace(s) == s
  {
  }

  /** What `Parser_skipMisc` skips is a gap inside a tag. */
  lemma TagGapOf(s: CString) returns (g: Gap)
    requires SkipMisc(s).ok
    ensures IsTagGap(g) && s == GapText(g) + SkipMisc(s).rest
    ensures var p := SkipMisc(s).rest; p != [] ==> !IsSpace(p[0]) && (g.space == [] ==> IsStop(p))
  {
    hide SkipMisc, SkipSpace, IsMisc, IsBlank, IsStop;
    if s != [] && IsSpace(s[0]) {
      var w := SpaceOf(s);
      NoMisc(s);
      g := Gap(w, []);
      assert w + [] == w;
    } else {
      var ms := MiscsOf(s);
      var p := SkipMisc(s).rest;
      NoBlank();
      g := Gap([], ms);
      assert [] + MiscText(ms) == MiscText(ms);
      if p != [] {
        StopIsNoSpace(p);
      }
    }
  }

  /** What is skipped if white space is skipped before is a gap. */
  lemma GapOf(s: CString) returns (g: Gap)
    requires SkipMisc(SkipSpace(s)).ok
    ensures IsGap(g) && s == GapText(g) + SkipMisc(SkipSpace(s)).rest
    ensures var p := SkipMisc(SkipSpace(s)).rest; p != [] ==> IsStop(p)
  {
    hide SkipMisc, SkipSpace, IsMisc, IsBlank, IsStop;
    var w := SpaceOf(s);
    var ms := MiscsOf(SkipSpace(s));
    g := Gap(w, ms);
    var p := SkipMisc(SkipSpace(s)).rest;
    assert w + MiscText(ms) + p == w + (MiscText(ms) + p);
  }

  // ---- Tokens ----

  /** Octets that are copied, and of which the first is ASCII and no "&": it is copied as it is. */
  lemma FirstIsCopied(p: CString, n: nat)
    requires 0 < n <= |p| && p[0] <= 0x7F && IsXmlChar(p[0]) && p[0] != AMPERSAND
    ensures CopyLoop(p, n).Some? <==> CopyLoop(p[1..], n - 1).Some?
    ensures CopyLoop(p, n).Some? ==> CopyLoop(p, n).value == [p[0]] + CopyLoop(p[1..], n - 1).value
  {
    hide StartsWithNoCase, Utf8ToInt, CopyLoop;
    CopyLoopStep(p, n);
  }

  lemma CopyLoopStep(s: CString, n: nat)
    requires 0 < n <= |s| && GetChar(s).len == 1 && 0 < GetChar(s).ch
    ensures GetChar(s).ch == s[0]
    ensures CopyLoop(s, n).Some? <==> CopyLoop(s[1..], n - 1).Some?
    ensures CopyLoop(s, n).Some? ==> CopyLoop(s, n).value == [s[0]] + CopyLoop(s[1..], n - 1).value
  {
    hide GetChar;
    GetCharAdvances(s);
  }

  /** Behind a "<" one octet is copied only if it is the character that is there: an overlong "/" is not. */
  lemma SlashIsPlain(s: CString)
    requires s != [] && Utf8ToInt(s).ch == SLASH && CopyLoop(s, 1).Some?
    ensures s[0] == SLASH
  {
    hide StartsWithNoCase;
    DecodeLocal(s, []);
    if s[0] <= 0x7F {
      AsciiDecodes(s);
    }
  }

  /** The octets that the scan of a name takes spell a name. */
  lemma {:induction false} ScannedOf(t: Tables, s: CString) returns (ps: seq<Piece>)
    ensures NameLength(t, s) <= |s| && RawText(ps) == s[..NameLength(t, s)]
    ensures forall k :: 0 <= k < |ps| ==> ps[k].Plain? && IsNamePiece(t, ps[k])
    ensures t.IsNameChar(Utf8ToInt(s).ch) ==> ps != [] && IsSpelled(ps[0]) && CharOf(ps[0]) == Utf8ToInt(s).ch
    ensures !t.IsNameChar(Utf8ToInt(s[NameLength(t, s)..]).ch)
    decreases |s|
  {
    hide Utf8ToInt, Bits, IsNamePiece, NameLength, IsSpelled;
    NameLengthBound(t, s);
    if t.IsNameChar(Utf8ToInt(s).ch) {
      var p := NameCharOf(t, s);
      var n := Utf8ToInt(s).len;
      ScanStep(t, s);
      var tl := ScannedOf(t, s[n..]);
      ps := [p] + tl;
      assert ps[0] == p && ps[1..] == tl;
    } else {
      ps := [];
      ScanEnds(t, s);
    }
  }

  lemma ScanEnds(t: Tables, s: CString)
    requires !t.IsNameChar(Utf8ToInt(s).ch)
    ensures NameLength(t, s) == 0 && s[0..] == s
  {
    hide Utf8ToInt;
  }

  lemma ScanStep(t: Tables, s: CString)
    requires t.IsNameChar(Utf8ToInt(s).ch)
    ensures var n := Utf8ToInt(s).len;
      && 0 < n <= |s|
      && var m := NameLength(t, s[n..]);
         && NameLength(t, s) == n + m <= |s| && s[..n + m] == s[..n] + s[n..][..m] && s[n + m..] == s[n..][m..]
  {
    hide Utf8ToInt;
    NameCharAdvances(t, s);
    NameLengthBound(t, s);
  }

  lemma NameCharOf(t: Tables, s: CString) returns (p: Piece)
    requires t.IsNameChar(Utf8ToInt(s).ch)
    ensures 0 < Utf8ToInt(s).len <= |s| && p == Plain(s[..Utf8ToInt(s).len])
    ensures IsNamePiece(t, p) && IsSpelled(p) && CharOf(p) == Utf8ToInt(s).ch
  {
    hide Utf8ToInt, Bits;
    assert t.Valid();
    NameCharAdvances(t, s);
    DecodedIsSequence(s);
    p := Plain(s[..Utf8ToInt(s).len]);
    if s[0] == AMPERSAND {
      AsciiDecodes(s);
      assert false;
    }
  }

  /** A name token comes from the spelling of a name, which goes as far as it can. */
  lemma NameOf(t: Tables, p: CString) returns (ps: seq<Piece>)
    requires t.IsLetter(Utf8ToInt(p).ch)
    ensures IsNameSpelling(t, ps) && NameLength(t, p) <= |p| && RawText(ps) == p[..NameLength(t, p)]
    ensures NameLength(t, p) > 0 && CopyToken(p, NameLength(t, p)) == Some(TextOf(ps))
    ensures !t.IsNameChar(Utf8ToInt(p[NameLength(t, p)..]).ch)
  {
    hide Utf8ToInt, NameLength, CopyLoop, TextOf, CharOf;
    ps := ScannedOf(t, p);
    NameLengthBound(t, p);
    var n := NameLength(t, p);
    PiecesAreCopied(ps, p[n..]);
    assert p[..n] + p[n..] == p;
  }

  /** What the text of a token tells: the token of a symbol is its text, and any other token is a name. */
  ghost predicate ComesFrom(t: Tables, k: Token, ps: seq<Piece>) {
    && k.text != []
    && if IsMarkup(k.text[0]) then
         && k.start == k.text + k.rest
         && (k.text == [QUOTE] || k.text == [SINGLEQUOTE] || k.text == [EQUALS] || k.text == TAGEND || k.text == STARTTAG
             || k.text == ENDTAG || k.text == COMPLETETAG)
         && (k.text == STARTTAG ==> t.IsLetter(Utf8ToInt(k.rest).ch))
       else
         && IsNameSpelling(t, ps) && k.text == TextOf(ps) && k.start == RawText(ps) + k.rest
         && !t.IsNameChar(Utf8ToInt(k.rest).ch)
  }

  lemma SymbolOf(t: Tables, p: CString, n: nat)
    requires p != [] && IsMarkup(p[0]) && TokenLength(t, p) == n && 0 < n <= |p| && CopyToken(p, n).Some?
    ensures IsPlainStart(p) && ComesFrom(t, Token(CopyToken(p, n).value, p, p[n..]), [])
  {
    hide CopyLoop, NameLength;
    assert t.Valid();
    FirstIsCopied(p, n);
    CopyNothing(p[1..]);
    assert p == [p[0]] + p[1..];
    if p[0] == LESSTHAN {
      SecondOf(t, p, n);
    } else if p[0] == SLASH {
      FirstIsCopied(p[1..], 1);
      CopyNothing(p[1..][1..]);
      assert p == COMPLETETAG + p[2..];
    }
  }

  /** What stands behind the "<" of a token */
  lemma SecondOf(t: Tables, p: CString, n: nat)
    requires p != [] && p[0] == LESSTHAN && TokenLength(t, p) == n && 0 < n <= |p| && CopyToken(p, n).Some?
    ensures IsPlainStart(p) && ComesFrom(t, Token(CopyToken(p, n).value, p, p[n..]), [])
  {
    hide CopyLoop, NameLength, Utf8ToInt;
    assert t.Valid();
    var s := p[1..];
    FirstIsCopied(p, n);
    CopyNothing(s);
    if Utf8ToInt(s).ch == SLASH {
      SlashIsPlain(s);
      FirstIsCopied(s, 1);
      CopyNothing(s[1..]);
      assert p == ENDTAG + p[2..];
    } else {
      assert n == 1 && CopyToken(p, n).value == STARTTAG && p[n..] == s;
      assert p == STARTTAG + s;
      assert t.IsNameChar(Utf8ToInt(s).ch);
      NameCharAdvances(t, s);
      if s[0] <= 0x7F {
        AsciiDecodes(s);
      }
    }
  }

  lemma TokenParts(t: Tables, s: CString)
    requires GetNextToken(t, s).text != []
    ensures s != [] && SkipMisc(s).ok
    ensures var p, k := SkipMisc(s).rest, GetNextToken(t, s);
      var n := TokenLength(t, p);
      0 < n <= |p| && p == k.start && CopyToken(p, n) == Some(k.text) && k.rest == p[n..]
  {
    hide SkipMisc, TokenLength, CopyLoop;
    TokenLengthBound(t, SkipMisc(s).rest);
  }

  /** Every token that is read comes from a gap and a symbol or a name. */
  lemma TokenOf(t: Tables, s: CString) returns (g: Gap, ps: seq<Piece>)
    requires GetNextToken(t, s).text != []
    ensures var k := GetNextToken(t, s);
      && ComesFrom(t, k, ps) && IsTagGap(g) && s == GapText(g) + k.start && IsStop(k.start) && GetNextToken(t, k.start) == k
      && IsPlainStart(k.start)
  {
    hide GetNextToken, SkipMisc, CopyLoop, NameLength, TokenLength, IsTagGap, IsNameSpelling, TextOf, Utf8ToInt;
    TokenParts(t, s);
    var p := SkipMisc(s).rest;
    g := TagGapOf(s);
    if IsMarkup(p[0]) {
      SymbolOf(t, p, TokenLength(t, p));
      ps := [];
    } else {
      LetterAhead(t, p);
      ps := NameOf(t, p);
      NameText(t, ps);
      assert p == p[..NameLength(t, p)] + p[NameLength(t, p)..];
    }
    PlainIsStop(p);
    SameToken(t, s, p);
  }

  lemma LetterAhead(t: Tables, p: CString)
    requires p != [] && !IsMarkup(p[0]) && TokenLength(t, p) > 0
    ensures t.IsLetter(Utf8ToInt(p).ch) && TokenLength(t, p) == NameLength(t, p)
  {
    hide NameLength, Utf8ToInt;
  }

  // ---- Attributes ----

  /** A "<" behind octets that hold no "&" is seen. */
  lemma {:induction false} LessBehind(v: CString, more: CString)
    requires AMPERSAND !in v && (LESSTHAN in v || HasIllegalLess(more))
    ensures HasIllegalLess(v + more)
    decreases |v|
  {
    if v == [] {
      assert v + more == more;
    } else {
      assert (v + more)[1..] == v[1..] + more;
      if v[0] != LESSTHAN {
        LessBehind(v[1..], more);
      }
    }
  }

  /** One "&", in front, and no "<" */
  predicate IsReference(r: CString) {
    |r| >= 2 && r[0] == AMPERSAND && forall k :: 1 <= k < |r| ==> r[k] != AMPERSAND && r[k] != LESSTHAN
  }

  lemma LessBehindReference(r: CString, more: CString)
    requires IsReference(r) && HasIllegalLess(more)
    ensures HasIllegalLess(r + more)
  {
    assert (r + more)[2..] == r[2..] + more;
    LessBehind(r[2..], more);
  }

  lemma AnyCaseIsReference(s: CString, lower: CString)
    requires IsInAnyCase(s, lower) && IsReference(lower)
    ensures IsReference(s)
  {
    forall k | 1 <= k < |s|
      ensures s[k] != AMPERSAND && s[k] != LESSTHAN
    {
      assert lower[k] != AMPERSAND && lower[k] != LESSTHAN;
    }
  }

  lemma TableIsReferences(e: Entity, hex: bool)
    ensures IsReference(EntityText(e)) && IsReference(ReferenceStart(hex))
  {
    ConstantsAgree();
  }

  lemma ReferenceIsPlain(p: Piece)
    requires IsSpelled(p) && !p.Plain?
    ensures IsReference(Raw(p))
  {
    hide IsReference, EntityText, ReferenceStart, IsInAnyCase;
    match p
    case Named(e, octets) =>
      TableIsReferences(e, false);
      AnyCaseIsReference(octets, EntityText(e));
    case Numeric(hex, start, digits) =>
      TableIsReferences(LT, hex);
      AnyCaseIsReference(start, ReferenceStart(hex));
      DigitsBehind(start, digits, hex);
  }

  lemma DigitsBehind(start: CString, digits: CString, hex: bool)
    requires IsReference(start) && AreDigits(digits, hex)
    ensures IsReference(start + digits + Octets(";"))
  {
    ConstantsAgree();
    var r := start + digits + Octets(";");
    forall k | 1 <= k < |r|
      ensures r[k] != AMPERSAND && r[k] != LESSTHAN
    {
      assert r[k] == if k < |start| then start[k] else if k < |start| + |digits| then digits[k - |start|] else SEMICOLON;
    }
  }

  lemma PlainHasNoReference(p: Piece)
    requires IsSpelled(p) && p.Plain?
    ensures AMPERSAND !in Raw(p)
  {
  }

  /** A value that passes the check for "<" has none, since the octet behind an "&" cannot be one. */
  lemma {:induction false} NoLessIn(ps: seq<Piece>)
    requires ArePieces(ps) && !HasIllegalLess(RawText(ps))
    ensures LESSTHAN !in RawText(ps)
    decreases |ps|
  {
    hide HasIllegalLess, IsSpelled, Raw, CharOf;
    if ps != [] {
      var p, more := ps[0], RawText(ps[1..]);
      assert IsPiece(p);
      if p.Plain? {
        PlainHasNoReference(p);
        if LESSTHAN in Raw(p) || HasIllegalLess(more) {
          LessBehind(Raw(p), more);
        }
      } else {
        ReferenceIsPlain(p);
        assert LESSTHAN !in Raw(p);
        if HasIllegalLess(more) {
          LessBehindReference(Raw(p), more);
        }
      }
      NoLessIn(ps[1..]);
    }
  }

  /** What has been read when `Parser_processAttribute` succeeds */
  lemma AttributeCases(t: Tables, name: CString, c: Cursor)
    requires ProcessAttribute(t, name, c).Got?
    ensures var eq := GetNextToken(t, c.rest);
      && eq.text != [] && eq.text[0] == EQUALS
      && var quote := GetNextToken(t, eq.rest);
         && quote.text != [] && (quote.text[0] == QUOTE || quote.text[0] == SINGLEQUOTE)
         && var s := quote.rest;
            var n := Find(s, quote.text);
            && n < |s| && !HasIllegalLess(s[..n]) && (n == 0 || CopyToken(s, n).Some?)
            && var k := GetNextToken(t, s[n + 1..]); k.text != [] && k.text != STARTTAG
    ensures t.IsLetter(Utf8ToInt(name).ch)
  {
    hide GetNextToken, Find, CopyLoop, HasIllegalLess, Utf8ToInt;
    var quote := GetNextToken(t, GetNextToken(t, c.rest).rest);
    FindBound(quote.rest, quote.text);
  }

  /** The octets up to the first quote */
  lemma QuotedOf(s: CString, q: Byte) returns (value: seq<Piece>)
    requires var n := Find(s, [q]); n < |s| && !HasIllegalLess(s[..n]) && (n == 0 || CopyToken(s, n).Some?)
    ensures ArePieces(value) && q !in RawText(value) && LESSTHAN !in RawText(value)
    ensures s == RawText(value) + ([q] + s[Find(s, [q]) + 1..])
  {
    hide Find, HasIllegalLess, CopyLoop, RawText, TextOf, ArePieces;
    FindBound(s, [q]);
    var n := Find(s, [q]);
    CopyNothing(s);
    value := TextIsSpelled(s, n);
    NoLessIn(value);
    assert s[n..][..1][0] == s[n];
    forall k | 0 <= k < n
      ensures s[k] != q
    {
      assert !StartsWith(s[k..], [q]);
      assert s[k..][..1] == [s[k]];
    }
    assert s == s[..n] + ([q] + s[n + 1..]);
  }

  /** An attribute that is accepted is one. */
  lemma AttributeOf(t: Tables, gap: Gap, name: seq<Piece>, c: Cursor) returns (a: AttrSpelling, more: CString)
    requires IsTagGap(gap) && IsNameSpelling(t, name) && ArePieces(name) && ProcessAttribute(t, TextOf(name), c).Got?
    ensures IsAttr(t, a) && a.gap == gap && a.name == name && c.rest == ValueTail(a, more)
    ensures GetNextToken(t, more).text != [] && GetNextToken(t, more).text != STARTTAG
  {
    hide GetNextToken, ProcessAttribute, Find, HasIllegalLess, CopyLoop, RawText, TextOf, ArePieces, IsTagGap, IsNameSpelling,
         GapText, IsStop;
    AttributeCases(t, TextOf(name), c);
    var before, _ := TokenOf(t, c.rest);
    var eq := GetNextToken(t, c.rest);
    var after, _ := TokenOf(t, eq.rest);
    var quote := GetNextToken(t, eq.rest);
    var q := quote.text[0];
    assert eq.text == [EQUALS] && quote.text == [q];
    var value := QuotedOf(quote.rest, q);
    more := quote.rest[Find(quote.rest, [q]) + 1..];
    a := AttrSpelling(gap, name, before, after, q, value);
  }

  // ---- Start tags ----

  /** The parser is where it stops when it has read ahead in `s`, behind the name of an element or an attribute. */
  predicate IsAhead(t: Tables, d: State, s: CString) {
    var k := GetNextToken(t, s);
    && k.text != [] && d.open != [] && d.stack != []
    && (k.text != TAGEND && k.text != COMPLETETAG ==>
          d.cursor.rest == s && d.cursor.mode == ATTRIBUTE && ParseLoop(t, d).Some?)
  }

  lemma LoopGoesOn(t: Tables, d: State)
    requires ParseLoop(t, d).Some? && d.cursor.rest != []
    ensures var n := GetNextNode(t, d.cursor, d.stack == []); n.Got? && OnEvent(d.(cursor := n.cursor), n.event).Some?
    ensures Step(t, d).Some? && ParseLoop(t, d) == ParseLoop(t, Step(t, d).value)
  {
    hide OnEvent;
    NextNodeAdvances(t, d.cursor, d.stack == []);
    hide GetNextNode;
  }

  lemma GoesOnAsAttribute(t: Tables, d: State, name: CString, c: Cursor)
    requires ParseLoop(t, d).Some? && d.cursor.rest != [] && d.stack != []
    requires GetNextNode(t, d.cursor, false) == ProcessAttribute(t, name, c)
    ensures ProcessAttribute(t, name, c).Got?
  {
    hide ParseLoop, GetNextNode, ProcessAttribute, Step;
    LoopGoesOn(t, d);
  }

  /** Only a name can begin an attribute. */
  lemma AttributeIsNamed(t: Tables, d: State, s: CString)
    requires IsAhead(t, d, s)
    requires var k := GetNextToken(t, s); k.text !in {TAGEND, COMPLETETAG, STARTTAG, ENDTAG}
    ensures !IsMarkup(GetNextToken(t, s).text[0])
  {
    hide GetNextToken, ParseLoop, SkipMisc, SkipSpace, IsNameSpelling, TextOf, Utf8ToInt, IsTagGap, IsStop, ProcessAttribute;
    var k := GetNextToken(t, s);
    var g, ps := TokenOf(t, s);
    if IsMarkup(k.text[0]) {
      SameInTag(t, s, g, k);
      var c := d.cursor.(rest := k.rest);
      NoLetter(t, k.text);
      SymbolNode(t, d.cursor, k);
      GoesOnAsAttribute(t, d, k.text, c);
      AttributeCases(t, k.text, c);
    }
  }

  lemma NoLetter(t: Tables, s: CString)
    requires s != [] && IsMarkup(s[0])
    ensures !t.IsLetter(Utf8ToInt(s).ch) && !t.IsNameChar(Utf8ToInt(s).ch)
  {
    hide Utf8ToInt;
    assert t.Valid();
    AsciiDecodes(s);
  }

  /** In a tag the same token is read when white space is skipped first. */
  lemma SameInTag(t: Tables, s: CString, g: Gap, k: Token)
    requires IsTagGap(g) && s == GapText(g) + k.start && IsStop(k.start) && GetNextToken(t, k.start) == k
    ensures s != [] && GetNextToken(t, SkipSpace(s)) == k && GetNextToken(t, s) == k && LeadsTo(s, k.start)
  {
    hide GetNextToken, SkipMisc, IsTagGap, GapText, IsStop, SkipSpace;
    TagGapIsSkipped(g, k.start);
    StopSkips(k.start);
    NotEmptied(s, k.start);
    SameToken(t, s, k.start);
    SameToken(t, SkipSpace(s), k.start);
  }

  lemma SymbolNode(t: Tables, c: Cursor, k: Token)
    requires c.rest != [] && c.mode == ATTRIBUTE && GetNextToken(t, SkipSpace(c.rest)) == k
    requires k.text == [QUOTE] || k.text == [SINGLEQUOTE] || k.text == [EQUALS]
    ensures GetNextNode(t, c, false) == ProcessAttribute(t, k.text, c.(rest := k.rest))
  {
    hide GetNextToken, SkipSpace, ProcessAttribute;
  }

  lemma EndOfTag(t: Tables, g: Gap, k: Token, closing: Closing, rest: CString, bare: bool)
    requires IsTagGap(g) && IsStop(k.start) && GetNextToken(t, k.start) == k && k.text != []
    requires if closing.Missing? then
               rest == k.start && IsMarkup(rest[0]) && (k.text == ENDTAG || (bare && k.text == STARTTAG))
             else CloseText(closing) == k.text && k.start == k.text + k.rest && rest == k.rest
    ensures TagTail([], g, closing, rest) == GapText(g) + k.start && Follows(t, bare, closing, rest)
  {
    hide GetNextToken, IsStop, IsTagGap, GapText;
    TailOfNone(g, closing, rest);
    if closing.Missing? {
      assert [] + rest == rest;
    }
  }

  /** What is left of a start tag, behind the name of its element or one of its attributes, is what may stand there. */
  lemma {:induction false} TailOf(t: Tables, d: State, s: CString, bare: bool)
    returns (attrs: seq<AttrSpelling>, end: Gap, closing: Closing, rest: CString)
    requires IsAhead(t, d, s) && (GetNextToken(t, s).text == STARTTAG ==> bare)
    ensures IsTagGap(end) && AddsNew(t, Last(d.open).attrs, attrs) && Follows(t, bare && attrs == [], closing, rest)
    ensures s == TagTail(attrs, end, closing, rest) && |rest| <= |s|
    decreases |s|
  {
    hide GetNextToken, ParseLoop, IsTagGap, GapText, IsAttr, TextOf, Follows, TagTail, IsNameSpelling, Utf8ToInt, IsStop,
         ArePieces;
    var k := GetNextToken(t, s);
    var g, ps := TokenOf(t, s);
    TokenAdvances(t, s);
    if k.text in {TAGEND, COMPLETETAG, STARTTAG, ENDTAG} {
      attrs, end := [], g;
      closing := if k.text == TAGEND then Mark else if k.text == COMPLETETAG then EmptyMark else Missing;
      rest := if closing.Missing? then k.start else k.rest;
      EndOfTag(t, g, k, closing, rest, bare);
    } else {
      AttributeIsNamed(t, d, s);
      var a, more, d1 := NextAttribute(t, d, s, g, ps);
      var tl;
      tl, end, closing, rest := TailOf(t, d1, more, false);
      attrs := [a] + tl;
      TagTailUnfold(a, tl, end, closing, rest);
      AddsToMore(t, Last(d.open).attrs, a, tl);
    }
  }

  lemma AddsToMore(t: Tables, there: seq<Attr>, a: AttrSpelling, tl: seq<AttrSpelling>)
    requires IsAttr(t, a) && ArePieces(a.name) && ArePieces(a.value)
    requires AddsNew(t, there + [AttrOf(a)], tl) && forall i :: 0 <= i < |there| ==> there[i].name != TextOf(a.name)
    ensures AddsNew(t, there, [a] + tl)
  {
    hide IsAttr, TextOf, ArePieces;
    var attrs, more := [a] + tl, there + [AttrOf(a)];
    AllPieces(t, tl);
    forall k | 0 <= k < |tl|
      ensures TextOf(tl[k].name) != TextOf(a.name)
    {
      assert more[|there|].name == TextOf(a.name);
    }
    forall i, k | 0 <= i < |there| && 0 <= k < |tl|
      ensures there[i].name != TextOf(tl[k].name)
    {
      assert more[i] == there[i];
    }
  }

  /** The attribute that the parser reads next */
  lemma NextAttribute(t: Tables, d: State, s: CString, g: Gap, ps: seq<Piece>) returns (a: AttrSpelling, more: CString, d1: State)
    requires IsAhead(t, d, s)
    requires var k := GetNextToken(t, s);
      && k.text !in {TAGEND, COMPLETETAG} && !IsMarkup(k.text[0]) && ComesFrom(t, k, ps)
      && IsTagGap(g) && s == GapText(g) + k.start && IsStop(k.start) && GetNextToken(t, k.start) == k
    ensures IsAttr(t, a) && ArePieces(a.name) && ArePieces(a.value)
    ensures s == GapText(a.gap) + (RawText(a.name) + ValueTail(a, more)) && a.gap == g && |more| < |s|
    ensures forall i :: 0 <= i < |Last(d.open).attrs| ==> Last(d.open).attrs[i].name != TextOf(a.name)
    ensures IsAhead(t, d1, more) && GetNextToken(t, more).text != STARTTAG
    ensures Last(d1.open).attrs == Last(d.open).attrs + [AttrOf(a)]
  {
    hide GetNextToken, ParseLoop, IsTagGap, GapText, IsAttr, TextOf, IsNameSpelling, Utf8ToInt, IsStop, ArePieces, RawText,
         ProcessAttribute, GetNextNode, Step, SkipSpace, LeadsTo;
    var k := GetNextToken(t, s);
    NameIsPieces(t, ps);
    SameInTag(t, s, g, k);
    HandsOver(t, d.cursor, k.text, k.start, k.rest);
    var c := d.cursor.(rest := k.rest);
    GoesOnAsAttribute(t, d, k.text, c);
    a, more := AttributeOf(t, g, ps, c);
    NameIsSpelled(t, a);
    AttributeParsed(t, a, c, more);
    LoopGoesOn(t, d);
    d1 := StateBehind(t, d, c, a, more);
  }

  lemma StateBehind(t: Tables, d: State, c: Cursor, a: AttrSpelling, more: CString) returns (d1: State)
    requires d.open != [] && d.stack != [] && ParseLoop(t, d).Some? && c.mode == ATTRIBUTE
    requires ArePieces(a.name) && ArePieces(a.value)
    requires var k := GetNextToken(t, more);
      && k.text != []
      && GetNextNode(t, d.cursor, false)
         == Got(if k.text == TAGEND then c.(rest := k.rest, mode := CONTENT) else c.(rest := Backup(more, k)),
                AttributeNode(TextOf(a.name), TextOf(a.value)))
    requires Step(t, d).Some? && ParseLoop(t, d) == ParseLoop(t, Step(t, d).value)
    ensures forall i :: 0 <= i < |Last(d.open).attrs| ==> Last(d.open).attrs[i].name != TextOf(a.name)
    ensures IsAhead(t, d1, more) && Last(d1.open).attrs == Last(d.open).attrs + [AttrOf(a)]
  {
    hide GetNextToken, ParseLoop, TextOf, GetNextNode, ArePieces;
    d1 := Step(t, d).value;
  }

  /** `Parser_processSTag` when it succeeds */
  lemma StartTagCases(t: Tables, s: CString)
    requires ProcessSTag(t, s).Got?
    ensures var k := GetNextToken(t, s);
      && k.text != []
      && var k2 := GetNextToken(t, k.rest);
         && k2.text != []
         && ProcessSTag(t, s)
            == if k2.text == TAGEND then Got(Cursor(k2.rest, CONTENT, Some(k.text)), StartTag(k.text))
               else Got(Cursor(Backup(k.rest, k2), if k2.text == COMPLETETAG then ELEMENT else ATTRIBUTE, Some(k.text)),
                        StartTag(k.text))
  {
    hide GetNextToken;
  }

  /** Behind a "<" that is a token stands a name at once. */
  lemma NameAtOnce(t: Tables, s: CString) returns (name: seq<Piece>)
    requires t.IsLetter(Utf8ToInt(s).ch) && GetNextToken(t, s).text != []
    ensures var k := GetNextToken(t, s);
      && IsNameSpelling(t, name) && ArePieces(name) && k.text == TextOf(name) && s == RawText(name) + k.rest
      && !t.IsNameChar(Utf8ToInt(k.rest).ch)
  {
    hide GetNextToken, Utf8ToInt, IsNameSpelling, TextOf, IsTagGap, IsStop, ArePieces, RawText;
    var g, ps := TokenOf(t, s);
    var k := GetNextToken(t, s);
    NothingSkipped(t, s);
    assert k.start == s;
    NotMarkupAhead(t, s, k, ps);
    NameIsPieces(t, ps);
    name := ps;
  }

  lemma NothingSkipped(t: Tables, s: CString)
    requires t.IsLetter(Utf8ToInt(s).ch) && GetNextToken(t, s).text != []
    ensures GetNextToken(t, s).start == s && s != [] && !IsMarkup(s[0])
  {
    hide Utf8ToInt, SkipMisc, TokenLength, CopyLoop;
    TokenParts(t, s);
    if IsMarkup(s[0]) {
      NoLetter(t, s);
      assert false;
    }
    PlainIsStop(s);
  }

  lemma NotMarkupAhead(t: Tables, s: CString, k: Token, ps: seq<Piece>)
    requires ComesFrom(t, k, ps) && k.start == s && s != [] && !IsMarkup(s[0])
    ensures !IsMarkup(k.text[0])
  {
    hide Utf8ToInt, IsNameSpelling, RawText, TextOf;
  }

  /** What follows a name and is no name character makes a gap, if an attribute follows. */
  lemma GapBehindName(t: Tables, s: CString, attrs: seq<AttrSpelling>, end: Gap, closing: Closing, rest: CString)
    requires !t.IsNameChar(Utf8ToInt(s).ch) && s == TagTail(attrs, end, closing, rest) && AddsNew(t, [], attrs)
    ensures AreAttrs(t, attrs)
  {
    hide Utf8ToInt, IsAttr, TagTail, TextOf;
    if attrs != [] && GapText(attrs[0].gap) == [] {
      var a, tl := attrs[0], attrs[1..];
      assert attrs == [a] + tl && IsAttr(t, a);
      TagTailUnfold(a, tl, end, closing, rest);
      NameIsSpelled(t, a);
      var r := ValueTail(a, TagTail(tl, end, closing, rest));
      assert [] + (RawText(a.name) + r) == RawText(a.name) + r;
      NameStart(t, a.name, r);
      assert false;
    }
  }

  /** A start tag that is accepted is one. */
  lemma StartTagOf(t: Tables, d: State, p: CString)
    returns (name: seq<Piece>, attrs: seq<AttrSpelling>, end: Gap, closing: Closing, rest: CString)
    requires ParseLoop(t, d).Some? && d.cursor.mode != CONTENT && LeadsTo(d.cursor.rest, p)
    requires IsStop(p) && GetNextToken(t, p).text == STARTTAG
    ensures IsNameSpelling(t, name) && AreAttrs(t, attrs) && IsTagGap(end) && Follows(t, attrs == [], closing, rest)
    ensures p == STARTTAG + (RawText(name) + TagTail(attrs, end, closing, rest)) && |rest| < |p|
    ensures d.hasTop ==> d.stack != []
  {
    hide GetNextToken, ParseLoop, IsTagGap, GapText, IsAttr, TextOf, IsNameSpelling, Utf8ToInt, IsStop, ArePieces, RawText,
         ProcessSTag, GetNextNode, Step, SkipSpace, SkipMisc, Follows, AreAttrs, AddsNew, TagTail;
    var c := d.cursor;
    SkipSpaceLength(c.rest);
    SameToken(t, SkipSpace(c.rest), p);
    STagNode(t, c, d.stack == []);
    LoopGoesOn(t, d);
    var s := GetNextToken(t, p).rest;
    var g, ps := TokenOf(t, p);
    StopIsStart(t, p);
    StartTagCases(t, s);
    name := NameAtOnce(t, s);
    var k := GetNextToken(t, s);
    var k2 := GetNextToken(t, k.rest);
    var d1 := Step(t, d).value;
    OpenedBy(t, d, d1, k.text, k.rest, k2);
    attrs, end, closing, rest := TailOf(t, d1, k.rest, true);
    GapBehindName(t, k.rest, attrs, end, closing, rest);
  }

  lemma StopIsStart(t: Tables, p: CString)
    requires IsStop(p) && GetNextToken(t, p).text != []
    ensures GetNextToken(t, p).start == p
  {
    hide SkipMisc, TokenLength, CopyLoop;
  }

  lemma OpenedBy(t: Tables, d: State, d1: State, name: CString, s: CString, k2: Token)
    requires k2 == GetNextToken(t, s) && k2.text != [] && Step(t, d) == Some(d1) && ParseLoop(t, d1).Some?
    requires GetNextNode(t, d.cursor, d.stack == [])
          == if k2.text == TAGEND then Got(Cursor(k2.rest, CONTENT, Some(name)), StartTag(name))
             else Got(Cursor(Backup(s, k2), if k2.text == COMPLETETAG then ELEMENT else ATTRIBUTE, Some(name)), StartTag(name))
    ensures IsAhead(t, d1, s) && Last(d1.open).attrs == [] && (d.hasTop ==> d.stack != [])
  {
    hide GetNextToken, ParseLoop, GetNextNode;
  }

  // ---- End tags ----

  /** `Parser_processETag` when it succeeds */
  lemma EndTagCases(t: Tables, s: CString, c: Cursor)
    requires ProcessETag(t, s, c).Got?
    ensures var name := GetNextToken(t, s);
      && name.text != []
      && var k := GetNextToken(t, SkipSpace(name.rest));
         k.text == TAGEND && ProcessETag(t, s, c) == Got(c.(rest := k.rest), EndTag(name.text))
  {
    hide GetNextToken, SkipSpace;
  }

  lemma ETagNode(t: Tables, c: Cursor, top: bool)
    requires c.rest != [] && c.mode != CONTENT && GetNextToken(t, SkipSpace(c.rest)).text == ENDTAG
    ensures GetNextNode(t, c, top) == ProcessETag(t, GetNextToken(t, SkipSpace(c.rest)).rest, c)
  {
    hide GetNextToken, SkipSpace, ProcessETag, ProcessContent;
  }

  lemma ClosedByName(t: Tables, d: State, name: CString)
    requires Step(t, d).Some? && GetNextNode(t, d.cursor, d.stack == []).Got?
    requires GetNextNode(t, d.cursor, d.stack == []).event == EndTag(name)
    ensures d.stack != [] && Last(d.stack) == name
  {
    hide GetNextNode;
  }

  /** The name behind "</", and the gap behind the name */
  lemma EndPartsOf(t: Tables, s: CString) returns (gap1: Gap, name: seq<Piece>, gap2: Gap, rest: CString)
    requires var k := GetNextToken(t, s);
      && k.text != [] && !IsMarkup(k.text[0]) && GetNextToken(t, SkipSpace(k.rest)).text == TAGEND
    ensures IsNameSpelling(t, name) && ArePieces(name) && TextOf(name) == GetNextToken(t, s).text
    ensures IsTagGap(gap1) && IsGap(gap2) && rest == GetNextToken(t, SkipSpace(GetNextToken(t, s).rest)).rest
    ensures s == GapText(gap1) + (RawText(name) + (GapText(gap2) + (TAGEND + rest)))
  {
    hide GetNextToken, IsTagGap, GapText, TextOf, IsNameSpelling, Utf8ToInt, IsStop, ArePieces, RawText, SkipSpace, SkipMisc,
         IsGap;
    var k := GetNextToken(t, s);
    gap1, name := TokenOf(t, s);
    NameIsPieces(t, name);
    var q := SkipSpace(k.rest);
    var k2 := GetNextToken(t, q);
    TokenParts(t, q);
    gap2 := GapOf(k.rest);
    rest := k2.rest;
    var _, _ := TokenOf(t, q);
  }

  /** An end tag that is accepted is one, with the name of the innermost open element. */
  lemma EndTagOf(t: Tables, d: State, p: CString) returns (name: seq<Piece>, gap1: Gap, gap2: Gap, rest: CString)
    requires ParseLoop(t, d).Some? && d.cursor.mode != CONTENT && LeadsTo(d.cursor.rest, p)
    requires IsStop(p) && GetNextToken(t, p).text == ENDTAG
    requires d.stack != [] ==> Last(d.stack) != [] && !IsMarkup(Last(d.stack)[0])
    ensures d.stack != [] && IsNameSpelling(t, name) && ArePieces(name) && TextOf(name) == Last(d.stack)
    ensures IsTagGap(gap1) && IsGap(gap2) && p == EndTail(name, gap1, gap2, rest) && |rest| < |p|
  {
    hide GetNextToken, ParseLoop, IsTagGap, GapText, TextOf, IsNameSpelling, Utf8ToInt, IsStop, ArePieces, RawText, IsGap,
         ProcessETag, GetNextNode, Step, SkipSpace, SkipMisc;
    var c := d.cursor;
    SkipSpaceLength(c.rest);
    SameToken(t, SkipSpace(c.rest), p);
    ETagNode(t, c, d.stack == []);
    LoopGoesOn(t, d);
    var s := GetNextToken(t, p).rest;
    var _, _ := TokenOf(t, p);
    StopIsStart(t, p);
    EndTagCases(t, s, c);
    ClosedByName(t, d, GetNextToken(t, s).text);
    gap1, name, gap2, rest := EndPartsOf(t, s);
  }
}

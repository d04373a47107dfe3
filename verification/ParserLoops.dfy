/** The parser of ixmlparser.c as it runs: a cursor that moves along a buffer, a token buffer, an
    element stack and a tree under construction. Each method is proved to compute the function of
    the same name in module Parser. */
module ParserLoops {
  import opened Options
  import opened Bytes
  import opened Utf8
  import opened Escape
  import opened Names
  import opened XmlTree
  import P = Parser
  import T = XmlTokens

  /** The name loop of the tokenizer takes only characters that `Parser_copyToken` copies. */
  lemma {:induction false} NameCopies(t: Tables, s: CString)
    ensures NameLength(t, s) <= |s| && CopyLoop(s, NameLength(t, s)).Some?
    decreases |s|
  {
    NameLengthBound(t, s);
    var d := Utf8ToInt(s);
    if t.IsNameChar(d.ch) {
      assert t.Valid();
      NameCharAdvances(t, s);
      NameCopies(t, s[d.len..]);
      assert GetChar(s) == d;
      GetCharAdvances(s);
    }
  }

  lemma NameLengthStep(t: Tables, s: CString)
    ensures var d := Utf8ToInt(s);
      if t.IsNameChar(d.ch) then 0 < d.len <= |s| && NameLength(t, s) == d.len + NameLength(t, s[d.len..])
      else NameLength(t, s) == 0
  {
    hide Utf8ToInt;
    if t.IsNameChar(Utf8ToInt(s).ch) {
      NameCharAdvances(t, s);
    }
  }

  /** No name token is lost half-way through the copy into the token buffer, and none looks like "/>". */
  lemma NameTokenCopies(t: Tables, p: CString)
    requires t.IsLetter(Utf8ToInt(p).ch)
    ensures 0 < NameLength(t, p) <= |p|
    ensures var k := P.TakeToken(p, NameLength(t, p)); k.text != [] && k.text[0] != SLASH && k.text[0] != LESSTHAN
  {
    assert t.Valid();
    NameCopies(t, p);
    NameLengthBound(t, p);
    NameCharAdvances(t, p);
    var d := Utf8ToInt(p);
    assert t.IsNameChar(d.ch);
    assert GetChar(p) == d;
    GetCharAdvances(p);
    var n := NameLength(t, p);
    P.CopyTokenNonEmpty(p, n);
    if d.ch > 0x7F {
      EncodingIsHigh(d.ch);
    }
    assert P.TakeToken(p, n).text[0] == CopiedChar(d)[0];
  }

  lemma SymbolCopies(p: CString)
    requires p != [] && p[0] in {QUOTE, SINGLEQUOTE, EQUALS, GREATERTHAN, LESSTHAN}
    ensures P.TakeToken(p, 1).text == [p[0]]
  {
    hide CopyLoop, Utf8ToInt;
    assert GetChar(p) == Decoded(p[0], 1);
    CopyNothing(p[1..]);
    CopyStep(p, Decoded(p[0], 1), 0, []);
  }

  /** "</" and "/>" are copied as they are. */
  lemma PairCopies(p: CString)
    requires |p| > 1 && p[0] in {LESSTHAN, SLASH} && p[1] in {SLASH, GREATERTHAN}
    ensures P.TakeToken(p, 2).text == [p[0], p[1]]
  {
    hide CopyLoop, Utf8ToInt;
    assert GetChar(p) == Decoded(p[0], 1);
    assert GetChar(p[1..]) == Decoded(p[1], 1);
    CopyNothing(p[1..][1..]);
    CopyStep(p[1..], Decoded(p[1], 1), 0, []);
    CopyStep(p, Decoded(p[0], 1), 1, [p[1]] + []);
  }

  /** What `Parser_copyToken` leaves in the token buffer, also when it fails. */
  function CopyBuffer(s: CString, n: int): CString
    requires n <= |s|
    decreases |s|
  {
    if n <= 0 then []
    else
      var d := GetChar(s);
      if d.ch <= 0 then []
      else
        GetCharAdvances(s);
        CopiedChar(d) + CopyBuffer(s[d.len..], n - d.len)
  }

  lemma {:induction false} CopyLoopBuffer(s: CString, n: int)
    requires n <= |s|
    ensures CopyLoop(s, n).Some? ==> CopyLoop(s, n).value == CopyBuffer(s, n)
    decreases |s|
  {
    hide GetChar, CopiedChar;
    if n > 0 && GetChar(s).ch > 0 {
      GetCharAdvances(s);
      CopyLoopBuffer(s[GetChar(s).len..], n - GetChar(s).len);
    }
  }

  /** A "<" in front of an overlong encoding of "/" is taken for an end tag of two octets, and the copy
      fails on its second octet; a second attempt to read the token fails again. */
  lemma OverlongSlash(t: Tables, p: CString)
    requires |p| > 1 && p[0] == LESSTHAN && p[1] != SLASH && Utf8ToInt(p[1..]).ch == SLASH
    ensures CopyLoop(p, 2).None? && CopyBuffer(p, 2) == P.ENDTAG
    ensures P.GetNextToken(t, p).text == []
  {
    var s := p[1..];
    assert s[0] == p[1];
    assert Utf8ToInt(s).len > 1;
    assert GetChar(p) == Decoded(LESSTHAN, 1);
    assert GetChar(s) == Utf8ToInt(s);
    assert CopyLoop(s, 1).None?;
    assert CopyBuffer(s, 1) == [SLASH] + [];
    assert p[1] != BANG && p[1] != QUESTION;
    T.NoMisc(p);
    assert SkipSpace(p) == p;
  }

  datatype Result = OK | FILE_DONE | FAILED

  class XmlParser {
    const tables: Tables
    const data: CString

    var cur: nat
    var save: nat
    var tokenBuf: CString
    var lastElem: Option<CString>
    var mode: P.Mode

    var stack: seq<CString>
    var open: seq<P.Frame>
    var roots: seq<Node>
    var hasTop: bool
    ghost var tags: seq<P.Tag>

    constructor (tables: Tables, data: CString)
      ensures this.tables == tables && this.data == data
      ensures cur == save == 0 && tokenBuf == [] && Progress() == P.InitialState(data)
    {
      this.tables := tables;
      this.data := data;
      cur, save, tokenBuf, lastElem, mode := 0, 0, [], None, P.ELEMENT;
      stack, open, roots, hasTop, tags := [], [], [], false, [];
    }

    /** The suffix of the buffer that the cursor points at. */
    ghost function Rest(): CString
      requires cur <= |data|
      reads this`cur
    {
      data[cur..]
    }

    ghost function Cursor(): P.Cursor
      requires cur <= |data|
      reads this`cur, this`mode, this`lastElem
    {
      P.Cursor(Rest(), mode, lastElem)
    }

    ghost function Progress(): P.State
      requires cur <= |data|
      reads this
    {
      P.State(Cursor(), stack, open, roots, hasTop, tags)
    }

    // ---- Skipping ----

    /** `Parser_skipWhiteSpaces` from offset `p` */
    method SkipWhiteSpacesAt(p: nat) returns (q: nat)
      requires p <= |data|
      ensures p <= q <= |data| && data[q..] == SkipSpace(data[p..])
    {
      q := p;
      while q < |data| && IsSpace(data[q])
        invariant p <= q <= |data|
        invariant SkipSpace(data[q..]) == SkipSpace(data[p..])
      {
        assert data[q..][1..] == data[q + 1..];
        q := q + 1;
      }
    }

    /** `Parser_skipString` from offset `p` */
    method SkipStringAt(p: nat, key: CString) returns (ok: bool, q: nat)
      requires p <= |data| && key != []
      ensures p <= q <= |data| && P.Skip(ok, data[q..]) == P.SkipString(data[p..], key)
    {
      hide Find, StartsWith;
      q := p;
      while q < |data| && !StartsWith(data[q..], key)
        invariant p <= q <= |data|
        invariant Find(data[p..], key) == q - p + Find(data[q..], key)
      {
        FindStep(data[q..], key);
        assert data[q..][1..] == data[q + 1..];
        q := q + 1;
      }
      FindStep(data[q..], key);
      if q == |data| {
        ok := false;
      } else {
        PrefixFits(data[q..], key);
        assert data[p..][q - p..] == data[q..];
        assert data[q..][|key|..] == data[q + |key|..];
        ok, q := true, q + |key|;
      }
    }

    /** `Parser_skipComment` from offset `p`; `Find` is `strstr`. */
    method SkipCommentAt(p: nat) returns (ok: bool, q: nat)
      requires p <= |data|
      ensures p <= q <= |data| && P.Skip(ok, data[q..]) == P.SkipComment(data[p..])
    {
      var i := Find(data[p..], P.END_COMMENT);
      FindBound(data[p..], P.END_COMMENT);
      if 0 < i < |data| - p && data[p + i - 1] != DASH {
        ok, q := true, p + i + |P.END_COMMENT|;
        assert data[p..][i..][|P.END_COMMENT|..] == data[q..];
      } else {
        ok, q := false, p;
      }
    }

    /** `Parser_skipMisc` */
    method SkipMisc() returns (ok: bool)
      requires cur <= |data|
      modifies this`cur
      ensures old(cur) <= cur <= |data| && P.Skip(ok, Rest()) == P.SkipMisc(old(Rest()))
    {
      ok := true;
      var done := false;
      while !done && ok
        invariant old(cur) <= cur <= |data|
        invariant P.SkipMisc(old(Rest())) == if done || !ok then P.Skip(ok, Rest()) else P.SkipMisc(Rest())
        decreases !done && ok, |data| - cur
      {
        ghost var r := Rest();
        if StartsWith(data[cur..], P.BEGIN_COMMENT) {
          P.SkipCommentAdvances(r);
          ok, cur := SkipCommentAt(cur);
        } else if P.IsXmlDecl(data[cur..]) {
          ok := false;
        } else if StartsWith(data[cur..], P.BEGIN_PI) {
          P.SkipStringAdvances(r, P.END_PI);
          ok, cur := SkipStringAt(cur, P.END_PI);
        } else {
          done := true;
        }
        cur := SkipWhiteSpacesAt(cur);
      }
    }

    /** `Parser_skipDocType` from offset `p` */
    method SkipDocTypeAt(p: nat) returns (ok: bool, q: nat)
      requires p <= |data|
      ensures p <= q <= |data| && ok == P.SkipDocType(data[p..], 1).ok
      ensures ok ==> data[q..] == P.SkipDocType(data[p..], 1).rest
    {
      hide Find, P.SkipDocType;
      q := p;
      var num := 1;
      while num != 0 && q < |data|
        invariant p <= q <= |data|
        invariant P.SkipDocType(data[p..], 1) == P.SkipDocType(data[q..], num)
        decreases |data| - q
      {
        DocTypeStep(data[q..], num);
        assert data[q..][1..] == data[q + 1..];
        if data[q] == LESSTHAN {
          num := num + 1;
        } else if data[q] == GREATERTHAN {
          num := num - 1;
        } else if data[q] == QUOTE {
          var i := Find(data[q + 1..], [QUOTE]);
          FindBound(data[q + 1..], [QUOTE]);
          if i == |data| - q - 1 {
            return false, q;
          }
          assert data[q + 1..][i + 1..] == data[q + 1 + i + 1..];
          q := q + 1 + i;
        }
        q := q + 1;
      }
      DocTypeStep(data[q..], num);
      ok := num == 0;
    }

    /** `Parser_skipProlog` */
    method SkipProlog() returns (ok: bool)
      requires cur <= |data|
      modifies this`cur
      ensures old(cur) <= cur <= |data| && ok == P.SkipProlog(old(Rest())).ok
      ensures ok ==> Rest() == P.SkipProlog(old(Rest())).rest
    {
      hide P.SkipMisc, P.SkipDocType, SkipSpace, Find;
      cur := SkipWhiteSpacesAt(cur);
      if StartsWith(data[cur..], P.XMLDECL) {
        ok, cur := SkipStringAt(cur, P.END_PI);
        if !ok {
          return;
        }
        cur := SkipWhiteSpacesAt(cur);
      }
      ok := SkipMisc();
      if ok && StartsWith(data[cur..], P.BEGIN_DOCTYPE) {
        assert data[cur..][1..] == data[cur + 1..];
        ok, cur := SkipDocTypeAt(cur + 1);
      }
      if ok {
        ok := SkipMisc();
      }
    }

    // ---- Tokens ----

    /** The digit loops of `Parser_getChar` */
    method ReadDigits(p: nat, hex: bool) returns (q: nat, sum: int)
      requires p <= |data|
      ensures var r := ReadRun(data[p..], hex, 0); q == p + r.len && sum == r.sum && q <= |data|
    {
      q, sum := p, 0;
      while q < |data| && IsDigit(data[q], hex)
        invariant p <= q <= |data|
        invariant var r, r' := ReadRun(data[p..], hex, 0), ReadRun(data[q..], hex, sum);
          r.len == q - p + r'.len && r.sum == r'.sum
      {
        assert data[q..][1..] == data[q + 1..];
        sum := Wrap(sum * Base(hex) + DigitValue(data[q]));
        q := q + 1;
      }
    }

    /** The branches of `Parser_getChar` for numeric character references, with the digits from offset `p` on */
    method ReadReference(p: nat, k: nat, hex: bool) returns (d: Decoded)
      requires p + k <= |data|
      ensures d == NumericReference(data[p..], k, hex)
    {
      var q, sum := ReadDigits(p + k, hex);
      assert data[p..][k..] == data[p + k..];
      d := if q < |data| && data[q] == SEMICOLON && IsXmlChar(sum) then Decoded(sum, q - p + 1) else INVALID;
    }

    /** `Parser_getChar` at offset `p` */
    method ReadChar(p: nat) returns (d: Decoded)
      requires p < |data|
      ensures d == GetChar(data[p..])
    {
      hide StartsWithNoCase, NumericReference, Utf8ToInt;
      var s := data[p..];
      if s[0] != AMPERSAND {
        if s[0] <= 0x7F && IsXmlChar(s[0]) {
          return Decoded(s[0], 1);
        }
        d := Utf8ToInt(s);
        return if IsXmlChar(d.ch) then d else Decoded(-1, d.len);
      } else if StartsWithNoCase(s, QUOT_ENTITY) {
        return Decoded(QUOTE, |QUOT_ENTITY|);
      } else if StartsWithNoCase(s, LT_ENTITY) {
        return Decoded(LESSTHAN, |LT_ENTITY|);
      } else if StartsWithNoCase(s, GT_ENTITY) {
        return Decoded(GREATERTHAN, |GT_ENTITY|);
      } else if StartsWithNoCase(s, APOS_ENTITY) {
        return Decoded(SINGLEQUOTE, |APOS_ENTITY|);
      } else if StartsWithNoCase(s, AMP_ENTITY) {
        return Decoded(AMPERSAND, |AMP_ENTITY|);
      } else if StartsWithNoCase(s, ESC_HEX) {
        PrefixNoCaseFits(s, ESC_HEX);
        d := ReadReference(p, |ESC_HEX|, true);
      } else if StartsWithNoCase(s, ESC_DEC) {
        PrefixNoCaseFits(s, ESC_DEC);
        d := ReadReference(p, |ESC_DEC|, false);
      } else {
        d := INVALID;
      }
    }

    /** The loop of `Parser_copyToken`, copying `len` octets from offset `src` behind `tokenBuf`. */
    method CopyToken(src: nat, len: nat) returns (ok: bool)
      requires src + len <= |data| && tokenBuf == []
      modifies this`tokenBuf
      ensures ok <==> Escape.CopyToken(data[src..], len).Some?
      ensures tokenBuf == CopyBuffer(data[src..], len)
    {
      hide GetChar, CopiedChar;
      if len == 0 {
        return false;
      }
      var psrc, pend: int := src, src + len;
      while psrc < pend
        invariant src <= psrc <= |data| && pend <= |data|
        invariant CopyBuffer(data[src..], len) == tokenBuf + CopyBuffer(data[psrc..], pend - psrc)
        invariant CopyLoop(data[src..], len).Some? <==> CopyLoop(data[psrc..], pend - psrc).Some?
      {
        var c := ReadChar(psrc);
        if c.ch <= 0 {
          return false;
        }
        GetCharAdvances(data[psrc..]);
        assert data[psrc..][c.len..] == data[psrc + c.len..];
        tokenBuf := tokenBuf + CopiedChar(c);
        psrc := psrc + c.len;
      }
      ok := psrc == pend;
    }

    /** The name loop of `Parser_getNextToken` */
    method ScanName(p: nat) returns (n: nat)
      requires p <= |data| && tables.IsLetter(Utf8ToInt(data[p..]).ch)
      ensures n == NameLength(tables, data[p..]) && p + n <= |data|
    {
      hide NameLength, Utf8ToInt;
      NameLengthStep(tables, data[p..]);
      n := Utf8ToInt(data[p..]).len;
      assert data[p..][n..] == data[p + n..];
      var d := Utf8ToInt(data[p + n..]);
      while tables.IsNameChar(d.ch)
        invariant p + n <= |data| && d == Utf8ToInt(data[p + n..])
        invariant NameLength(tables, data[p..]) == n + NameLength(tables, data[p + n..])
        decreases |data| - n
      {
        NameLengthStep(tables, data[p + n..]);
        assert data[p + n..][d.len..] == data[p + n + d.len..];
        n := n + d.len;
        d := Utf8ToInt(data[p + n..]);
      }
      NameLengthStep(tables, data[p + n..]);
    }

    /** The cases of `Parser_getNextToken`; a token "/>" is saved for backing up. */
    method MeasureToken() returns (len: nat)
      requires cur <= |data|
      modifies this`save
      ensures len == P.TokenLength(tables, Rest())
      ensures save == if len == 2 && data[cur] == SLASH then cur else old(save)
    {
      hide NameLength, Utf8ToInt;
      len := 0;
      if cur == |data| {
      } else if data[cur] == QUOTE || data[cur] == SINGLEQUOTE {
        len := 1;
      } else if data[cur] == LESSTHAN {
        assert Rest()[1..] == data[cur + 1..];
        var c := Utf8ToInt(data[cur + 1..]).ch;
        if c == SLASH {
          len := 2;
        } else if tables.IsLetter(c) {
          len := 1;
        }
      } else if data[cur] == EQUALS {
        len := 1;
      } else if data[cur] == SLASH {
        if cur + 1 < |data| && data[cur + 1] == GREATERTHAN {
          len := 2;
          save := cur;
        }
      } else if data[cur] == GREATERTHAN {
        len := 1;
      } else if tables.IsLetter(Utf8ToInt(data[cur..]).ch) {
        len := ScanName(cur);
      }
    }

    /** `Parser_getNextToken`; a failed copy may leave part of a token in the buffer. */
    method GetNextToken() returns (len: nat)
      requires cur <= |data|
      modifies this`cur, this`save, this`tokenBuf
      ensures cur <= |data|
      ensures var k := P.GetNextToken(tables, old(Rest()));
        && Rest() == k.rest && (len == 0 <==> k.text == [])
        && (len != 0 ==> tokenBuf == k.text)
        && (k.text == P.COMPLETETAG ==> save <= |data| && data[save..] == k.start)
        && (k.text != P.COMPLETETAG ==> save == old(save))
      ensures len == 0 && tokenBuf != [] ==> tokenBuf == P.ENDTAG && P.GetNextToken(tables, Rest()).text == []
    {
      hide P.SkipMisc, CopyLoop, CopyBuffer, P.TokenLength;
      tokenBuf := [];
      if cur == |data| {
        return 0;
      }
      var ok := SkipMisc();
      ghost var p := Rest();
      P.TokenLengthBound(tables, p);
      if !ok {
        return 0;
      }
      len := MeasureToken();
      ok := CopyToken(cur, len);
      CopyLoopBuffer(p, len);
      TokenKinds(tables, p);
      if !ok {
        return 0;
      }
      assert p[len..] == data[cur + len..];
      cur := cur + len;
    }

    // ---- Nodes ----

    /** `Parser_processSTag` */
    method ProcessSTag() returns (rc: Result, node: P.Event)
      requires cur <= |data|
      modifies this`cur, this`save, this`tokenBuf, this`lastElem, this`mode
      ensures cur <= |data| && Delivers(P.ProcessSTag(tables, old(Rest())), rc, node, Cursor())
    {
      hide P.GetNextToken;
      node := P.Nothing;
      var len := GetNextToken();
      if len == 0 {
        return FAILED, node;
      }
      var name := tokenBuf;
      lastElem := Some(name);
      save := cur;
      len := GetNextToken();
      if len == 0 {
        return FAILED, node;
      }
      if tokenBuf == P.COMPLETETAG {
        mode := P.ELEMENT;
        cur := save;
      } else if tokenBuf == P.TAGEND {
        mode := P.CONTENT;
      } else {
        mode := P.ATTRIBUTE;
        cur := save;
      }
      return OK, P.StartTag(name);
    }

    /** `Parser_processETag` */
    method ProcessETag() returns (rc: Result, node: P.Event)
      requires cur <= |data|
      modifies this`cur, this`save, this`tokenBuf
      ensures cur <= |data| && Delivers(P.ProcessETag(tables, old(Rest()), old(Cursor())), rc, node, Cursor())
    {
      hide P.GetNextToken, SkipSpace;
      node := P.Nothing;
      var len := GetNextToken();
      if len == 0 {
        return FAILED, node;
      }
      var name := tokenBuf;
      cur := SkipWhiteSpacesAt(cur);
      len := GetNextToken();
      if len == 0 || tokenBuf != P.TAGEND {
        return FAILED, node;
      }
      return OK, P.EndTag(name);
    }

    /** The loop of `Parser_processAttribute` over the octets of a value. */
    method FindIllegalLess(p: nat, q: nat) returns (bad: bool)
      requires p <= q <= |data|
      ensures bad == P.HasIllegalLess(data[p..q])
    {
      var k := p;
      while k < q
        invariant p <= k
        invariant P.HasIllegalLess(data[p..q]) == (k < q && P.HasIllegalLess(data[k..q]))
      {
        var s := data[k..q];
        assert s[1..] == data[k + 1..q];
        if data[k] == LESSTHAN {
          return true;
        }
        if data[k] == AMPERSAND {
          assert k + 2 <= q ==> s[2..] == data[k + 2..q];
          assert k + 1 == q ==> s[1..] == [];
          k := k + 1;
        }
        k := k + 1;
      }
      bad := false;
    }

    /** `Parser_processAttribute` with the name in the token buffer */
    method ProcessAttribute() returns (rc: Result, node: P.Event)
      requires cur <= |data| && tokenBuf != []
      modifies this`cur, this`save, this`tokenBuf, this`mode
      ensures cur <= |data|
      ensures Delivers(P.ProcessAttribute(tables, old(tokenBuf), old(Cursor())), rc, node, Cursor())
    {
      hide P.GetNextToken, Utf8ToInt, Find, CopyLoop, CopyBuffer, P.HasIllegalLess;
      node := P.Nothing;
      var name := tokenBuf;
      if !tables.IsLetter(Utf8ToInt(name).ch) {
        return FAILED, node;
      }
      var len := GetNextToken();
      if len == 0 || tokenBuf[0] != EQUALS {
        return FAILED, node;
      }
      len := GetNextToken();
      if len == 0 || (tokenBuf[0] != QUOTE && tokenBuf[0] != SINGLEQUOTE) {
        return FAILED, node;
      }
      var ok, n := ReadValue();
      if !ok {
        return FAILED, node;
      }
      rc, node := LookAheadAfterAttribute(name, tokenBuf, cur + n + 1);
    }

    /** The value of an attribute, up to the quote that is in the token buffer. */
    method ReadValue() returns (ok: bool, n: nat)
      requires cur <= |data|
      modifies this`tokenBuf
      ensures var s, quote := Rest(), old(tokenBuf);
        && n == Find(s, quote) && n <= |s|
        && (ok <==> n < |s| && !P.HasIllegalLess(s[..n]) && (n == 0 || Escape.CopyToken(s, n).Some?))
        && (ok ==> s[n + 1..] == data[cur + n + 1..])
        && (ok ==> tokenBuf == if n == 0 then [] else Escape.CopyToken(s, n).value)
    {
      hide Find, CopyLoop, CopyBuffer, P.HasIllegalLess;
      ghost var s := Rest();
      n := Find(data[cur..], tokenBuf);
      FindBound(s, tokenBuf);
      if n == |data| - cur {
        return false, n;
      }
      assert s[..n] == data[cur..cur + n];
      var bad := FindIllegalLess(cur, cur + n);
      if bad {
        return false, n;
      }
      tokenBuf := [];
      ok := true;
      if n != 0 {
        ok := CopyToken(cur, n);
        CopyLoopBuffer(s, n);
      }
    }

    /** The end of `Parser_processAttribute`: it reads ahead to see whether there are more attributes. */
    method LookAheadAfterAttribute(name: CString, value: CString, after: nat) returns (rc: Result, node: P.Event)
      requires after <= |data|
      modifies this`cur, this`save, this`tokenBuf, this`mode
      ensures cur <= |data|
      ensures var k := P.GetNextToken(tables, data[after..]);
        if k.text == [] || k.text == P.STARTTAG then rc == FAILED
        else
          && rc == OK && node == P.AttributeNode(name, value)
          && if k.text == P.TAGEND then mode == P.CONTENT && Rest() == k.rest
             else mode == old(mode) && Rest() == P.Backup(data[after..], k)
    {
      hide P.GetNextToken;
      cur := after;
      node := P.Nothing;
      save := cur;
      var len := GetNextToken();
      if len == 0 || tokenBuf == P.STARTTAG {
        return FAILED, node;
      }
      if tokenBuf != P.TAGEND {
        cur := save;
      } else {
        mode := P.CONTENT;
      }
      return OK, P.AttributeNode(name, value);
    }

    /** The loop of `Parser_processCDSect` */
    method ScanCData(p: nat) returns (q: nat)
      requires p <= |data|
      ensures p <= q <= |data| && q == p + P.CDataLength(data[p..])
    {
      q := p;
      while q < |data| && data[q] <= 0x7F && IsXmlChar(data[q]) && !StartsWith(data[q..], P.CDEND)
        invariant p <= q <= |data|
        invariant P.CDataLength(data[p..]) == q - p + P.CDataLength(data[q..])
      {
        assert data[q..][1..] == data[q + 1..];
        q := q + 1;
      }
    }

    /** The loop of `Parser_processContent` over a text */
    method ScanText(p: nat) returns (q: nat)
      requires p <= |data|
      ensures p <= q <= |data| && q == p + P.TextLength(data[p..])
    {
      q := p;
      while q < |data| && data[q] != LESSTHAN && !StartsWith(data[q..], P.CDEND)
        invariant p <= q <= |data|
        invariant P.TextLength(data[p..]) == q - p + P.TextLength(data[q..])
      {
        assert data[q..][1..] == data[q + 1..];
        q := q + 1;
      }
    }

    /** `Parser_processCDSect` */
    method ProcessCData() returns (rc: Result, node: P.Event)
      requires cur <= |data| && StartsWith(data[cur..], P.CDSTART)
      modifies this`cur
      ensures cur <= |data| && Delivers(P.ProcessCData(old(Rest()), old(Cursor())), rc, node, Cursor())
    {
      hide P.CDataLength, StartsWith;
      PrefixFits(data[cur..], P.CDSTART);
      ghost var s := Rest();
      var start := cur + |P.CDSTART|;
      ghost var p := s[|P.CDSTART|..];
      assert p == data[start..];
      var end := ScanCData(start);
      if end == start || end + |P.CDEND| > |data| {
        return FAILED, P.Nothing;
      }
      node := P.CDataNode(data[start..end]);
      assert p[..end - start] == data[start..end];
      assert p[end - start + |P.CDEND|..] == data[end + |P.CDEND|..];
      cur := end + |P.CDEND|;
      rc := OK;
    }

    /** `Parser_skipPI` from offset `p`; `Find` is `strstr`. */
    method SkipPIAt(p: nat) returns (ok: bool, q: nat)
      requires p <= |data|
      ensures p <= q <= |data| && P.Skip(ok, data[q..]) == P.SkipPI(data[p..])
    {
      hide P.IsXmlDecl, Find, StartsWith;
      if P.IsXmlDecl(data[p..]) {
        return false, p;
      }
      var i := Find(data[p..], P.END_PI);
      FindBound(data[p..], P.END_PI);
      if i == 0 || i == |data| - p {
        return false, p;
      }
      PrefixFits(data[p..][i..], P.END_PI);
      q := p + i + |P.END_PI|;
      assert data[p..][i..][|P.END_PI|..] == data[q..];
      ok := true;
    }

    /** The part of `Parser_processContent` at a "<" */
    method ProcessMarkup() returns (rc: Result, node: P.Event)
      requires cur < |data| && data[cur] == LESSTHAN && mode == P.CONTENT
      modifies this`cur, this`mode
      ensures cur <= |data| && Delivers(P.ProcessContent(old(Cursor())), rc, node, Cursor())
    {
      hide P.SkipComment, P.SkipPI, StartsWith, P.TextLength, CopyLoop, P.ProcessCData;
      ghost var p := Rest();
      assert SkipSpace(p) == p;
      node := P.Nothing;
      if StartsWith(data[cur..], P.CDSTART) {
        CDataIsNotDone(p, Cursor());
        rc, node := ProcessCData();
      } else if StartsWith(data[cur..], P.BEGIN_COMMENT) {
        var ok;
        ok, cur := SkipCommentAt(cur);
        rc := if ok then OK else FAILED;
      } else if StartsWith(data[cur..], P.BEGIN_PI) {
        var ok;
        ok, cur := SkipPIAt(cur);
        rc := if ok then OK else FAILED;
      } else {
        mode := P.ELEMENT;
        rc := OK;
      }
    }

    /** The part of `Parser_processContent` that reads a text */
    method ProcessText() returns (rc: Result, node: P.Event)
      requires cur < |data| && SkipSpace(Rest()) != [] && SkipSpace(Rest())[0] != LESSTHAN
      modifies this`cur, this`tokenBuf
      ensures cur <= |data| && Delivers(P.ProcessContent(old(Cursor())), rc, node, Cursor())
    {
      hide P.TextLength, CopyLoop, SkipSpace, CopyBuffer, P.ProcessCData, P.SkipComment, P.SkipPI, StartsWith;
      ghost var s := Rest();
      node := P.Nothing;
      var end := ScanText(cur);
      var n := end - cur;
      assert s[n..] == data[end..];
      if StartsWith(data[end..], P.CDEND) {
        return FAILED, node;
      }
      tokenBuf := [];
      var ok := CopyToken(cur, n);
      if !ok {
        return FAILED, node;
      }
      CopyLoopBuffer(s, n);
      node := P.TextNode(tokenBuf);
      cur := end;
      rc := OK;
    }

    /** `Parser_processContent` */
    method ProcessContent() returns (rc: Result, node: P.Event)
      requires cur < |data| && mode == P.CONTENT
      modifies this`cur, this`save, this`tokenBuf, this`mode
      ensures cur <= |data| && Delivers(P.ProcessContent(old(Cursor())), rc, node, Cursor())
    {
      hide P.TextLength, CopyLoop, SkipSpace, P.CDataLength, P.SkipComment, P.SkipPI, StartsWith;
      ghost var s := Rest();
      save := cur;
      cur := SkipWhiteSpacesAt(cur);
      if cur == |data| {
        return OK, P.Nothing;
      }
      if data[cur] == LESSTHAN {
        SkipSpaceTwice(s);
        rc, node := ProcessMarkup();
      } else {
        cur := save;
        rc, node := ProcessText();
      }
    }

    /** `Parser_getNextNode` */
    method GetNextNode() returns (rc: Result, node: P.Event)
      requires cur <= |data|
      modifies this`cur, this`save, this`tokenBuf, this`mode, this`lastElem
      ensures cur <= |data|
      ensures Delivers(P.GetNextNode(tables, old(Cursor()), stack == []), rc, node, Cursor())
      ensures rc == FILE_DONE ==> Cursor() == old(Cursor())
    {
      hide P.GetNextToken, SkipSpace, P.ProcessContent, P.ProcessETag, P.ProcessSTag, P.ProcessAttribute;
      node := P.Nothing;
      if cur == |data| {
        return FILE_DONE, node;
      }
      if mode == P.CONTENT {
        P.ContentAdvances(Cursor());
        rc, node := ProcessContent();
        return;
      }
      ghost var c := Cursor();
      cur := SkipWhiteSpacesAt(cur);
      var len := GetNextToken();
      ghost var r := Rest();
      if len == 0 && stack == [] && cur == |data| {
        return OK, node;
      } else if |tokenBuf| == 0 {
        return FAILED, node;
      }
      if tokenBuf[0] == GREATERTHAN {
        return OK, node;
      } else if tokenBuf == P.ENDTAG {
        P.ETagAdvances(tables, r, c);
        ETagNeedsName(tables, r, c);
        rc, node := ProcessETag();
      } else if tokenBuf[0] == LESSTHAN {
        P.STagAdvances(tables, r);
        rc, node := ProcessSTag();
      } else if tokenBuf == P.COMPLETETAG {
        if lastElem.None? {
          return FAILED, node;
        }
        return OK, P.EndTag(lastElem.value);
      } else if mode == P.ATTRIBUTE && stack != [] {
        P.AttributeAdvances(tables, tokenBuf, Cursor());
        rc, node := ProcessAttribute();
      } else {
        return FAILED, node;
      }
    }

    // ---- The document ----

    /** `ixmlNode_appendChild` on `currentNodePtr` */
    method AppendChild(n: Node) returns (ok: bool)
      requires cur <= |data|
      modifies this`open, this`roots
      ensures Becomes(P.AppendChild(old(Progress()), n), ok, Progress())
    {
      if open == [] {
        ok := n.Element?;
        if ok {
          roots := roots + [n];
        }
      } else {
        var f := P.Last(open);
        open := P.DropLast(open) + [f.(children := f.children + [n])];
        ok := true;
      }
    }

    /** `isDuplicateAttribute` */
    method IsDuplicateAttribute(name: CString) returns (found: bool)
      requires open != []
      ensures var attrs := P.Last(open).attrs; found <==> exists i :: 0 <= i < |attrs| && attrs[i].name == name
    {
      var attrs, k := P.Last(open).attrs, 0;
      while k < |attrs|
        invariant 0 <= k <= |attrs|
        invariant forall i :: 0 <= i < k ==> attrs[i].name != name
      {
        if attrs[k].name == name {
          return true;
        }
        k := k + 1;
      }
      found := false;
    }

    /** `Parser_processAttributeName` */
    method ProcessAttributeName(name: CString, value: CString) returns (ok: bool)
      requires cur <= |data|
      modifies this`open
      ensures Becomes(P.AddAttribute(old(Progress()), name, value), ok, Progress())
    {
      if open == [] {
        return false;
      }
      var duplicate := IsDuplicateAttribute(name);
      if duplicate {
        return false;
      }
      var f := P.Last(open);
      open := P.DropLast(open) + [f.(attrs := f.attrs + [Attr(name, value)])];
      ok := true;
    }

    /** `Parser_processElementName`, with `Parser_pushElement` */
    method ProcessElementName(name: CString) returns (ok: bool)
      requires cur <= |data|
      modifies this`save, this`stack, this`open, this`hasTop, this`tags
      ensures Becomes(P.OpenElement(old(Progress()), name), ok, Progress())
    {
      if hasTop {
        if stack == [] {
          return false;
        }
      } else {
        hasTop := true;
      }
      save := cur;
      open := open + [P.Frame(name, [], [])];
      stack := stack + [name];
      tags := tags + [P.Open(name)];
      ok := true;
    }

    /** `Parser_eTagVerification`, with `Parser_popElement` and the change of state behind it */
    method VerifyETag(name: CString) returns (ok: bool)
      requires cur <= |data|
      modifies this`mode, this`stack, this`open, this`roots, this`tags
      ensures Becomes(P.CloseElement(old(Progress()), name), ok, Progress())
    {
      if stack == [] || P.Last(stack) != name {
        return false;
      }
      stack := P.DropLast(stack);
      if open == [] || P.Last(open).name != name {
        return false;
      }
      var f := P.Last(open);
      open := P.DropLast(open);
      tags := tags + [P.Close(name)];
      mode := P.CONTENT;
      ok := AppendChild(Element(f.name, f.attrs, f.children));
    }

    /** The body of the loop of `Parser_parseDocument` after `Parser_getNextNode` */
    method HandleNode(node: P.Event) returns (ok: bool)
      requires cur <= |data|
      modifies this`save, this`mode, this`stack, this`open, this`roots, this`hasTop, this`tags
      ensures Becomes(P.OnEvent(old(Progress()), node), ok, Progress())
    {
      hide P.OpenElement, P.CloseElement, P.AddAttribute, P.AppendChild;
      ok := true;
      match node {
        case Nothing =>
        case StartTag(name) => ok := ProcessElementName(name);
        case EndTag(name) => ok := VerifyETag(name);
        case AttributeNode(name, value) => ok := ProcessAttributeName(name, value);
        case TextNode(text) => ok := AppendChild(Text(text));
        case CDataNode(text) => ok := AppendChild(CData(text));
      }
    }

    /** The loop of `Parser_parseDocument` */
    method ParseLoop() returns (ok: bool)
      requires cur <= |data|
      modifies this
      ensures cur <= |data| && Becomes(P.ParseLoop(tables, old(Progress())), ok, Progress())
    {
      hide P.GetNextNode, P.OnEvent, P.OpenElement, P.CloseElement, P.AddAttribute, P.AppendChild;
      ghost var start := Progress();
      while true
        invariant cur <= |data|
        invariant P.ParseLoop(tables, start) == P.ParseLoop(tables, Progress())
        decreases |data| - cur, P.ModeRank(mode)
      {
        ghost var before := Progress();
        ParseLoopStep(tables, before);
        var rc, node := GetNextNode();
        if rc == FAILED {
          return false;
        }
        if rc == FILE_DONE {
          return stack == [];
        }
        assert Progress() == before.(cursor := Cursor());
        var handled := HandleNode(node);
        if !handled {
          return false;
        }
        P.StepAdvances(tables, before);
      }
    }

    /** `Parser_parseDocument` on a parser that is at the start of its buffer */
    method ParseDocument() returns (ok: bool)
      requires cur == 0 && Progress() == P.InitialState(data)
      modifies this
      ensures cur <= |data| && Becomes(P.ParseDocument(tables, data), ok, Progress())
    {
      hide P.ParseLoop, P.SkipProlog;
      assert Rest() == data;
      ok := SkipProlog();
      if ok {
        assert Progress() == P.InitialState(Rest());
        ok := ParseLoop();
      }
    }
  }

  /** A method on the state of the parser does what the function of the same name computes. */
  ghost predicate Becomes(want: Option<P.State>, ok: bool, got: P.State) {
    (ok <==> want.Some?) && (ok ==> want.value == got)
  }

  lemma ParseLoopStep(t: Tables, d: P.State)
    ensures var n := P.GetNextNode(t, d.cursor, d.stack == []);
      P.ParseLoop(t, d) ==
      if n.FileDone? then if d.stack == [] then Some(d) else None
      else if n.Failed? then None
      else
        var next := P.OnEvent(d.(cursor := n.cursor), n.event);
        if next.None? then None else P.ParseLoop(t, next.value)
  {
    hide P.GetNextNode, P.OnEvent;
  }

  lemma FindStep(s: CString, key: CString)
    ensures Find(s, key) == if s == [] || StartsWith(s, key) then 0 else 1 + Find(s[1..], key)
  {
  }

  lemma DocTypeStep(s: CString, num: int)
    ensures var i := if s == [] then 0 else Find(s[1..], [QUOTE]);
      P.SkipDocType(s, num) ==
      if num == 0 then P.Skip(true, s)
      else if s == [] then P.Skip(false, s)
      else if s[0] == LESSTHAN then P.SkipDocType(s[1..], num + 1)
      else if s[0] == GREATERTHAN then P.SkipDocType(s[1..], num - 1)
      else if s[0] != QUOTE then P.SkipDocType(s[1..], num)
      else if i >= |s| - 1 then P.Skip(false, s)
      else P.SkipDocType(s[1..][i + 1..], num)
  {
    hide Find;
    if s != [] {
      FindBound(s[1..], [QUOTE]);
    }
  }

  lemma PrefixNoCaseFits(s: CString, key: CString)
    requires StartsWithNoCase(s, key)
    ensures |key| <= |s|
  {
  }

  lemma PrefixFits(s: CString, key: CString)
    requires StartsWith(s, key)
    ensures |key| <= |s|
  {
  }

  lemma CDataIsNotDone(s: CString, c: P.Cursor)
    requires StartsWith(s, P.CDSTART)
    ensures P.ProcessCData(s, c) != P.FileDone
  {
  }

  lemma SkipSpaceTwice(s: CString)
    ensures SkipSpace(SkipSpace(s)) == SkipSpace(s)
  {
    SkipSpaceLength(s);
  }

  lemma ETagNeedsName(t: Tables, s: CString, c: P.Cursor)
    ensures P.GetNextToken(t, s).text == [] ==> P.ProcessETag(t, s, c) == P.Failed
    ensures P.ProcessETag(t, s, c) == P.ProcessETag(t, s, c.(rest := s))
  {
    hide P.GetNextToken;
  }

  /** A node method returns what the function of the same name computes. */
  ghost predicate Delivers(n: P.Next, rc: Result, node: P.Event, c: P.Cursor) {
    match n
    case Failed => rc == FAILED
    case FileDone => rc == FILE_DONE
    case Got(cursor, event) => rc == OK && node == event && c == cursor
  }

  /** What the tokens look like: only "/>" has the text "/>", and only an overlong "</" is lost. */
  lemma TokenKinds(t: Tables, p: CString)
    ensures var n := P.TokenLength(t, p);
      && n <= |p|
      && (P.TakeToken(p, n).text == P.COMPLETETAG <==> n == 2 && p[0] == SLASH)
      && (n > 0 && CopyToken(p, n).None? ==> CopyBuffer(p, n) == P.ENDTAG && P.GetNextToken(t, p).text == [])
      && (n > 0 && CopyToken(p, n).Some? ==> CopyToken(p, n).value != [])
      && (n == 0 ==> CopyBuffer(p, n) == [])
  {
    hide P.SkipMisc, CopyLoop, NameLength, Utf8ToInt, GetChar;
    var n := P.TokenLength(t, p);
    P.TokenLengthBound(t, p);
    if n > 0 {
      if p[0] in {QUOTE, SINGLEQUOTE, EQUALS, GREATERTHAN} || (p[0] == LESSTHAN && n == 1) {
        SymbolCopies(p);
      } else if p[0] == LESSTHAN && p[1] != SLASH {
        OverlongSlash(t, p);
      } else if p[0] == LESSTHAN || p[0] == SLASH {
        PairCopies(p);
      } else {
        NameTokenCopies(t, p);
      }
    }
  }
}

/** The printer's escaping (`copy_with_escape`) and the parser's unescaping
    (`Parser_getChar`, `Parser_copyToken`), and why the second undoes the first. */
module Escape {
  import opened Options
  import opened Bytes
  import opened Utf8

  const QUOT_ENTITY: CString := [0x26, 0x71, 0x75, 0x6F, 0x74, 0x3B] // "&quot;"
  const LT_ENTITY: CString := [0x26, 0x6C, 0x74, 0x3B] // "&lt;"
  const GT_ENTITY: CString := [0x26, 0x67, 0x74, 0x3B] // "&gt;"
  const APOS_ENTITY: CString := [0x26, 0x61, 0x70, 0x6F, 0x73, 0x3B] // "&apos;"
  const AMP_ENTITY: CString := [0x26, 0x61, 0x6D, 0x70, 0x3B] // "&amp;"

  /** What `copy_with_escape` appends for one octet. */
  function EscapeByte(b: Byte): CString {
    if b == LESSTHAN then LT_ENTITY
    else if b == GREATERTHAN then GT_ENTITY
    else if b == AMPERSAND then AMP_ENTITY
    else if b == SINGLEQUOTE then APOS_ENTITY
    else if b == QUOTE then QUOT_ENTITY
    else [b]
  }

  /** What `copy_with_escape` appends for a string. */
  function EscapeText(s: CString): CString {
    if s == [] then [] else EscapeByte(s[0]) + EscapeText(s[1..])
  }

  // ---- Reading one character ----

  const ESC_HEX: CString := [0x26, 0x23, 0x78] // "&#x"
  const ESC_DEC: CString := [0x26, 0x23] // "&#"
  const SEMICOLON := 0x3B

  function Base(hex: bool): nat {
    if hex then 16 else 10
  }

  /** `strchr(HEX_NUMBERS, b) != 0` or `strchr(DEC_NUMBERS, b) != 0` for a non-zero `b` */
  predicate IsDigit(b: Byte, hex: bool) {
    0x30 <= b <= 0x39 || (hex && (0x41 <= b <= 0x46 || 0x61 <= b <= 0x66))
  }

  function DigitValue(b: Byte): int {
    if b <= 0x39 then b - 0x30 else if b <= 0x46 then b - 0x41 + 10 else b - 0x61 + 10
  }

  /** The value that is left in a 32-bit `int` */
  function Wrap(n: int): int {
    (n + 0x8000_0000) % 0x1_0000_0000 - 0x8000_0000
  }

  /** How many digits stand at the beginning of a string, and the sum that their loop arrives at. */
  datatype Run = Run(len: nat, sum: int)

  function ReadRun(s: CString, hex: bool, sum: int): (r: Run)
    ensures r.len <= |s|
  {
    if s != [] && IsDigit(s[0], hex) then
      var r := ReadRun(s[1..], hex, Wrap(sum * Base(hex) + DigitValue(s[0])));
      Run(r.len + 1, r.sum)
    else Run(0, sum)
  }

  /** A numeric character reference whose digits begin at index `k`. Digits that reach the end of the string are
      a failure here; C would read on behind the NUL, which `strchr` finds in any string. */
  function NumericReference(s: CString, k: nat, hex: bool): Decoded
    requires k <= |s|
  {
    var r := ReadRun(s[k..], hex, 0);
    if k + r.len < |s| && s[k + r.len] == SEMICOLON && IsXmlChar(r.sum) then Decoded(r.sum, k + r.len + 1)
    else INVALID
  }

  /** `Parser_getChar` in strict mode at a non-NUL position; a character <= 0 is a failure. */
  function GetChar(s: CString): Decoded
    requires s != []
  {
    if s[0] != AMPERSAND then
      if s[0] <= 0x7F && IsXmlChar(s[0]) then Decoded(s[0], 1)
      else var d := Utf8ToInt(s);
        if IsXmlChar(d.ch) then d else Decoded(-1, d.len)
    else if StartsWithNoCase(s, QUOT_ENTITY) then Decoded(QUOTE, |QUOT_ENTITY|)
    else if StartsWithNoCase(s, LT_ENTITY) then Decoded(LESSTHAN, |LT_ENTITY|)
    else if StartsWithNoCase(s, GT_ENTITY) then Decoded(GREATERTHAN, |GT_ENTITY|)
    else if StartsWithNoCase(s, APOS_ENTITY) then Decoded(SINGLEQUOTE, |APOS_ENTITY|)
    else if StartsWithNoCase(s, AMP_ENTITY) then Decoded(AMPERSAND, |AMP_ENTITY|)
    else if StartsWithNoCase(s, ESC_HEX) then NumericReference(s, |ESC_HEX|, true)
    else if StartsWithNoCase(s, ESC_DEC) then NumericReference(s, |ESC_DEC|, false)
    else INVALID
  }

  /** A character that was read takes at least one octet of the string and never passes its end. */
  lemma GetCharAdvances(s: CString)
    requires s != [] && GetChar(s).ch > 0
    ensures 0 < GetChar(s).len <= |s|
    ensures GetChar(s).ch <= 0x10FFFF
    ensures GetChar(s).len == 1 ==> GetChar(s).ch == s[0]
  {
    if s[0] != AMPERSAND && !(s[0] <= 0x7F && IsXmlChar(s[0])) {
      DecodeLocal(s, []);
    }
  }

  /** What the loop of `Parser_copyToken` appends to the token buffer while `n` octets of `s`
      are still to be copied; a character that reaches past them is a failure. */
  function CopyLoop(s: CString, n: int): Option<CString>
    requires n <= |s|
    decreases |s|
  {
    if n < 0 then None
    else if n == 0 then Some([])
    else
      var d := GetChar(s);
      if d.ch <= 0 then None
      else
        GetCharAdvances(s);
        EncodingHasNoNul(d.ch);
        var rest := CopyLoop(s[d.len..], n - d.len);
        if rest.None? then None else Some(CopiedChar(d) + rest.value)
  }

  /** What one character puts into the token buffer: itself, or its encoding. */
  function CopiedChar(d: Decoded): CString
    requires 0 < d.ch <= 0x10FFFF
    requires d.len == 1 ==> d.ch < 0x100
  {
    EncodingHasNoNul(d.ch);
    if d.len == 1 then [d.ch] else IntToUtf8(d.ch)
  }

  /** `Parser_copyToken`: the text of the first `n` octets of `s`. */
  function CopyToken(s: CString, n: nat): Option<CString>
    requires n <= |s|
  {
    if n == 0 then None else CopyLoop(s, n)
  }

  // ---- Escaped text holds no markup ----

  predicate HasNoMarkup(s: CString) {
    forall k :: 0 <= k < |s| ==> s[k] != LESSTHAN && s[k] != GREATERTHAN && s[k] != QUOTE && s[k] != SINGLEQUOTE
  }

  lemma {:induction false} EscapedHasNoMarkup(s: CString)
    ensures HasNoMarkup(EscapeText(s))
    ensures |EscapeText(s)| >= |s|
  {
    if s != [] {
      EscapedHasNoMarkup(s[1..]);
    }
  }

  lemma {:induction false} EscapeConcat(a: CString, b: CString)
    ensures EscapeText(a + b) == EscapeText(a) + EscapeText(b)
  {
    if a == [] {
      assert a + b == b;
    } else {
      assert (a + b)[1..] == a[1..] + b;
      EscapeConcat(a[1..], b);
    }
  }

  /** White space is not escaped, so the leading white space of a text is that of its escaped form. */
  lemma {:induction false} EscapeAllSpace(s: CString)
    ensures AllSpace(s) ==> EscapeText(s) == s
    ensures AllSpace(EscapeText(s)) ==> AllSpace(s)
  {
    if s != [] {
      var e := EscapeText(s);
      assert e[0] == EscapeByte(s[0])[0];
      assert e[|EscapeByte(s[0])|..] == EscapeText(s[1..]);
      EscapeAllSpace(s[1..]);
      if AllSpace(e) {
        assert IsSpace(e[0]);
        assert AllSpace(EscapeText(s[1..])) by {
          forall k | 0 <= k < |EscapeText(s[1..])| ensures IsSpace(EscapeText(s[1..])[k]) {
            assert EscapeText(s[1..])[k] == e[k + |EscapeByte(s[0])|];
          }
        }
        assert forall k :: 1 <= k < |s| ==> s[k] == s[1..][k - 1];
      }
      if AllSpace(s) {
        assert IsSpace(s[0]);
        assert AllSpace(s[1..]);
      }
    }
  }

  // ---- Unescaping ----

  /** The octets above 127 of a multi-octet character pass through the escaping unchanged. */
  lemma {:induction false} EscapeHighOctets(s: CString)
    requires forall k :: 0 <= k < |s| ==> s[k] >= 0x80
    ensures EscapeText(s) == s
  {
    if s != [] {
      EscapeHighOctets(s[1..]);
    }
  }

  lemma EncodingIsHigh(c: int)
    requires 0x7F < c <= 0x7FFFFFFF
    ensures forall k :: 0 <= k < |IntToUtf8(c)| ==> 0x80 <= IntToUtf8(c)[k]
    ensures |IntToUtf8(c)| > 1
  {
  }

  /** The five entities are told apart by their second and third letters. */
  lemma EntityRead(c: Byte, rest: CString)
    requires c in {LESSTHAN, GREATERTHAN, AMPERSAND, SINGLEQUOTE, QUOTE}
    ensures GetChar(EscapeByte(c) + rest) == Decoded(c, |EscapeByte(c)|)
  {
    var e := EscapeByte(c);
    var s := e + rest;
    assert forall k :: 0 <= k < |e| ==> s[k] == e[k];
    assert c != QUOTE ==> !StartsWithNoCase(s, QUOT_ENTITY) by { assert QUOT_ENTITY[1] == 0x71; assert s[1] == e[1]; }
    assert c != LESSTHAN ==> !StartsWithNoCase(s, LT_ENTITY) by { assert LT_ENTITY[1] == 0x6C; assert s[1] == e[1]; }
    assert c != GREATERTHAN ==> !StartsWithNoCase(s, GT_ENTITY) by { assert GT_ENTITY[1] == 0x67; assert s[1] == e[1]; }
    assert c == AMPERSAND ==> !StartsWithNoCase(s, APOS_ENTITY) by {
      assert APOS_ENTITY[2] == 0x70;
      assert s[2] == e[2];
    }
  }

  /** One escaped character is read back as that character, whatever follows it. */
  lemma GetCharOfEscaped(c: int, enc: CString, rest: CString)
    requires IsXmlChar(c) && enc == IntToUtf8(c)
    ensures EscapeText(enc) != []
    ensures GetChar(EscapeText(enc) + rest) == Decoded(c, |EscapeText(enc)|)
    ensures CopiedChar(Decoded(c, |EscapeText(enc)|)) == enc
  {
    if c <= 0x7F {
      assert enc == [c] && EscapeText(enc[1..]) == [];
      assert EscapeText(enc) == EscapeByte(c);
      if c in {LESSTHAN, GREATERTHAN, AMPERSAND, SINGLEQUOTE, QUOTE} {
        EntityRead(c, rest);
      }
    } else {
      EncodingIsHigh(c);
      EscapeHighOctets(enc);
      DecodeEncode(c, rest);
    }
  }

  lemma CopyNothing(s: CString)
    ensures CopyLoop(s, 0) == Some([]) && EscapeText([]) == []
  {
  }

  lemma CopyStep(buf: CString, d: Decoded, n: nat, tl: CString)
    requires buf != [] && GetChar(buf) == d && 0 < d.ch
    requires d.len + n <= |buf| && CopyLoop(buf[d.len..], n) == Some(tl)
    ensures d.len > 0 && d.ch <= 0x10FFFF && (d.len == 1 ==> d.ch < 0x100)
    ensures CopyLoop(buf, d.len + n) == Some(CopiedChar(d) + tl)
  {
    hide GetChar, Utf8ToInt, IntToUtf8;
    GetCharAdvances(buf);
  }

  /** `Parser_copyToken` applied to the output of `copy_with_escape` gives the original string,
      for every string of minimally encoded XML characters, whatever follows it in the buffer. */
  lemma {:induction false} CopyEscaped(s: CString, rest: CString)
    requires IsXmlText(s)
    ensures CopyLoop(EscapeText(s) + rest, |EscapeText(s)|) == Some(s)
    decreases |s|
  {
    hide GetChar, Utf8ToInt, IntToUtf8, CopyLoop, EscapeText, CopiedChar;
    if s == [] {
      CopyNothing(EscapeText(s) + rest);
    } else {
      var d := Utf8ToInt(s);
      var enc, tl := s[..d.len], s[d.len..];
      assert s == enc + tl;
      EscapeConcat(enc, tl);
      var e, f := EscapeText(enc), EscapeText(tl);
      var after := f + rest;
      var buf := e + after;
      assert EscapeText(s) + rest == buf;
      GetCharOfEscaped(d.ch, enc, after);
      assert buf[|e|..] == after;
      CopyEscaped(tl, rest);
      CopyStep(buf, Decoded(d.ch, |e|), |f|, tl);
    }
  }

  lemma CopyTokenUndoesEscape(s: CString, rest: CString)
    requires s != [] && IsXmlText(s)
    ensures EscapeText(s) != []
    ensures CopyToken(EscapeText(s) + rest, |EscapeText(s)|) == Some(s)
  {
    EscapedHasNoMarkup(s);
    CopyEscaped(s, rest);
  }
}

/** How characters can be spelled in a document: as they are, as one of the five entities, or as numeric references. The
    octets are written out here as text; the constants of printer and parser are proved to agree with them. */
module Spelling {
  import opened Options
  import opened Bytes
  import opened Utf8
  import opened Escape

  /** The octets of ASCII text */
  function Octets(s: string): (r: CString)
    requires forall i :: 0 <= i < |s| ==> '\0' < s[i] < '\U{0080}'
    ensures |r| == |s| && forall i :: 0 <= i < |s| ==> r[i] == s[i] as int
  {
    seq(|s|, i requires 0 <= i < |s| => s[i] as int)
  }

  /** Section 2.2 of XML 1.0 (2nd edition) */
  predicate IsChar(c: int) {
    c in {0x9, 0xA, 0xD} || 0x20 <= c <= 0xD7FF || 0xE000 <= c <= 0xFFFD || 0x10000 <= c <= 0x10FFFF
  }

  // ---- The table of entities ----

  datatype Entity = LT | GT | AMP | APOS | QUOT

  function EntityText(e: Entity): CString {
    match e
    case LT => Octets("&lt;")
    case GT => Octets("&gt;")
    case AMP => Octets("&amp;")
    case APOS => Octets("&apos;")
    case QUOT => Octets("&quot;")
  }

  function EntityChar(e: Entity): Byte {
    match e
    case LT => '<' as int
    case GT => '>' as int
    case AMP => '&' as int
    case APOS => '\'' as int
    case QUOT => '"' as int
  }

  /** `s` is `lower` with any of its letters in upper case. */
  predicate IsInAnyCase(s: CString, lower: CString) {
    && |s| == |lower|
    && forall k :: 0 <= k < |s| ==>
         s[k] == lower[k] || ('a' as int <= lower[k] <= 'z' as int && s[k] == lower[k] - 0x20)
  }

  lemma CaseIsIgnored(s: CString, lower: CString, rest: CString)
    requires IsInAnyCase(s, lower) && forall k :: 0 <= k < |lower| ==> !(0x41 <= lower[k] <= 0x5A)
    ensures StartsWithNoCase(s + rest, lower)
  {
    forall k | 0 <= k < |s|
      ensures ToLower((s + rest)[k]) == ToLower(lower[k])
    {
      assert (s + rest)[k] == s[k];
    }
  }

  lemma ConstantsAgree()
    ensures EntityText(LT) == LT_ENTITY && EntityText(GT) == GT_ENTITY && EntityText(AMP) == AMP_ENTITY
    ensures EntityText(APOS) == APOS_ENTITY && EntityText(QUOT) == QUOT_ENTITY
    ensures Octets("&#x") == ESC_HEX && Octets("&#") == ESC_DEC && Octets(";") == [SEMICOLON]
  {
  }

  /** The octet at `k` of the text that is read tells two entities apart. */
  lemma Differs(s: CString, lower: CString, rest: CString, key: CString, k: nat)
    requires IsInAnyCase(s, lower) && k < |s| && k < |key| && 'a' as int <= lower[k] <= 'z' as int
    requires 'a' as int <= key[k] <= 'z' as int && lower[k] != key[k]
    ensures !StartsWithNoCase(s + rest, key)
  {
    assert (s + rest)[k] == s[k];
    assert ToLower(s[k]) == lower[k];
  }

  /** Each of the five entities, in any letter case and whatever follows, is read as its character. */
  lemma EntityIsRead(e: Entity, s: CString, rest: CString)
    requires IsInAnyCase(s, EntityText(e))
    ensures GetChar(s + rest) == Decoded(EntityChar(e), |s|)
  {
    hide StartsWithNoCase, Utf8ToInt, NumericReference;
    ConstantsAgree();
    CaseIsIgnored(s, EntityText(e), rest);
    if e != QUOT {
      Differs(s, EntityText(e), rest, QUOT_ENTITY, 1);
    }
    if e in {GT, AMP, APOS} {
      Differs(s, EntityText(e), rest, LT_ENTITY, 1);
    }
    if e in {AMP, APOS} {
      Differs(s, EntityText(e), rest, GT_ENTITY, 1);
    }
    if e == AMP {
      Differs(s, EntityText(e), rest, APOS_ENTITY, 2);
    }
  }

  /** What the printer has to write for an octet */
  function Printed(b: Byte): CString {
    if b == '<' as int then Octets("&lt;")
    else if b == '>' as int then Octets("&gt;")
    else if b == '&' as int then Octets("&amp;")
    else if b == '\'' as int then Octets("&apos;")
    else if b == '"' as int then Octets("&quot;")
    else [b]
  }

  function AllPrinted(s: CString): CString {
    if s == [] then [] else AllPrinted(s[..|s| - 1]) + Printed(s[|s| - 1])
  }

  /** Escaping writes for each octet, one after the other, what the table says. */
  lemma {:induction false} EscapesByTable(s: CString)
    ensures EscapeText(s) == AllPrinted(s)
  {
    if s != [] {
      var front, last := s[..|s| - 1], s[|s| - 1..];
      assert s == front + last;
      EscapeConcat(front, last);
      EscapesByTable(front);
      assert last[1..] == [] && EscapeText(last) == EscapeByte(last[0]) + [] == EscapeByte(last[0]);
      ConstantsAgree();
    }
  }

  // ---- Numeric references ----

  /** Decimal digits, or hexadecimal ones with letters of either case */
  predicate AreDigits(ds: CString, hex: bool) {
    forall k :: 0 <= k < |ds| ==>
      || '0' as int <= ds[k] <= '9' as int
      || (hex && ('A' as int <= ds[k] <= 'F' as int || 'a' as int <= ds[k] <= 'f' as int))
  }

  function Digit(b: Byte): int {
    if '0' as int <= b <= '9' as int then b - '0' as int
    else if 'A' as int <= b <= 'F' as int then b - 'A' as int + 10
    else b - 'a' as int + 10
  }

  /** The number that is written by the digits of `high` and then `ds` */
  function Number(ds: CString, hex: bool, high: int): int {
    if ds == [] then high else Number(ds[1..], hex, high * (if hex then 16 else 10) + Digit(ds[0]))
  }

  /** What is left of the number in 32 bits */
  function Low(ds: CString, hex: bool): int {
    Number(ds, hex, 0) % 0x1_0000_0000
  }

  lemma DigitAgrees(b: Byte, hex: bool)
    requires AreDigits([b], hex)
    ensures IsDigit(b, hex) && DigitValue(b) == Digit(b) >= 0 && Base(hex) == if hex then 16 else 10
  {
    assert [b][0] == b;
  }

  lemma WrapCycle(n: int, k: int)
    ensures Wrap(n + k * 0x1_0000_0000) == Wrap(n)
  {
  }

  lemma WrapIs(n: int) returns (k: int)
    ensures Wrap(n) == n + k * 0x1_0000_0000
  {
    k := -((n + 0x8000_0000) / 0x1_0000_0000);
  }

  /** It does no harm that the sum was cut to 32 bits before. */
  lemma WrapStep(high: int, base: int, digit: int)
    ensures Wrap(Wrap(high) * base + digit) == Wrap(high * base + digit)
  {
    hide Wrap;
    var k := WrapIs(high);
    assert (high + k * 0x1_0000_0000) * base + digit == high * base + digit + k * base * 0x1_0000_0000;
    WrapCycle(high * base + digit, k * base);
  }

  /** A sum that is an XML character is what is left of the number. */
  lemma WrapLow(n: int)
    ensures IsChar(n % 0x1_0000_0000) <==> IsXmlChar(Wrap(n))
    ensures IsChar(n % 0x1_0000_0000) ==> Wrap(n) == n % 0x1_0000_0000
  {
  }

  lemma ReadRunStep(b: Byte, s: CString, hex: bool, high: int)
    requires IsDigit(b, hex)
    ensures var r := ReadRun(s, hex, Wrap(high * Base(hex) + DigitValue(b)));
      ReadRun([b] + s, hex, high) == Run(r.len + 1, r.sum)
  {
    assert ([b] + s)[0] == b && ([b] + s)[1..] == s;
  }

  /** The loop over the digits arrives at the number, cut to 32 bits. */
  lemma {:induction false} DigitsAreRead(ds: CString, hex: bool, high: int, rest: CString)
    requires AreDigits(ds, hex)
    requires rest != [] && rest[0] == ';' as int
    ensures ReadRun(ds + rest, hex, Wrap(high)) == Run(|ds|, Wrap(Number(ds, hex, high)))
  {
    hide ReadRun, Wrap, IsDigit, DigitValue, Digit, Base;
    if ds == [] {
      assert ds + rest == rest;
      NoDigits(rest, hex, Wrap(high));
    } else {
      var b, tl := ds[0], ds[1..];
      assert AreDigits([b], hex);
      DigitAgrees(b, hex);
      assert ds + rest == [b] + (tl + rest);
      ReadRunStep(b, tl + rest, hex, Wrap(high));
      WrapStep(high, Base(hex), Digit(b));
      DigitsAreRead(tl, hex, high * Base(hex) + Digit(b), rest);
    }
  }

  lemma NoDigits(rest: CString, hex: bool, high: int)
    requires rest != [] && rest[0] == ';' as int
    ensures ReadRun(rest, hex, high) == Run(0, high)
  {
  }

  function ReferenceStart(hex: bool): CString {
    if hex then Octets("&#x") else Octets("&#")
  }

  /** A decimal or hexadecimal reference, with any number of leading zeros and letters of either case, is read as the
      character whose number is left of it in 32 bits, if that is an XML character, whatever follows. */
  lemma ReferenceIsRead(start: CString, ds: CString, hex: bool, rest: CString)
    requires IsInAnyCase(start, ReferenceStart(hex)) && AreDigits(ds, hex) && IsChar(Low(ds, hex))
    ensures var s := start + ds + Octets(";"); GetChar(s + rest) == Decoded(Low(ds, hex), |s|)
  {
    hide Low, ReadRun, AreDigits, StartsWithNoCase, NumericReference, Utf8ToInt;
    var s := start + ds + Octets(";") + rest;
    var tl := ds + (Octets(";") + rest);
    assert s == start + tl;
    ConstantsAgree();
    CaseIsIgnored(start, ReferenceStart(hex), tl);
    StartsDigits(ds, hex, Octets(";") + rest);
    NoEntity(s);
    if !hex {
      NotHex(s);
    }
    NumberIsRead(s, |start|, ds, hex, Octets(";") + rest);
  }

  lemma StartsDigits(ds: CString, hex: bool, rest: CString)
    requires AreDigits(ds, hex) && IsChar(Low(ds, hex))
    ensures ds != [] && AreDigits([ds[0]], hex)
  {
  }

  lemma NoEntity(s: CString)
    requires |s| > 1 && s[0] == '&' as int && s[1] == '#' as int
    ensures !StartsWithNoCase(s, QUOT_ENTITY) && !StartsWithNoCase(s, LT_ENTITY) && !StartsWithNoCase(s, GT_ENTITY)
    ensures !StartsWithNoCase(s, APOS_ENTITY) && !StartsWithNoCase(s, AMP_ENTITY)
  {
    assert ToLower(s[1]) == '#' as int;
    assert QUOT_ENTITY[1] != 0x23 && LT_ENTITY[1] != 0x23 && GT_ENTITY[1] != 0x23;
    assert APOS_ENTITY[1] != 0x23 && AMP_ENTITY[1] != 0x23;
  }

  lemma NotHex(s: CString)
    requires |s| > 2 && AreDigits([s[2]], false)
    ensures !StartsWithNoCase(s, ESC_HEX)
  {
    assert '0' as int <= [s[2]][0] <= '9' as int;
    assert ToLower(s[2]) != ToLower(ESC_HEX[2]);
  }

  lemma NumberIsRead(s: CString, k: nat, ds: CString, hex: bool, rest: CString)
    requires k <= |s| && s[k..] == ds + rest && rest != [] && rest[0] == ';' as int
    requires AreDigits(ds, hex)
    ensures NumericReference(s, k, hex)
         == if IsChar(Low(ds, hex)) then Decoded(Low(ds, hex), k + |ds| + 1) else INVALID
  {
    hide Number, ReadRun, AreDigits, Wrap;
    assert Wrap(0) == 0 by { NoWrap(); }
    DigitsAreRead(ds, hex, 0, rest);
    WrapLow(Number(ds, hex, 0));
    assert s[k..][|ds|] == ';' as int;
  }

  lemma NoWrap()
    ensures Wrap(0) == 0
  {
  }

  // ---- Text ----

  /** One character of character data: an octet sequence, an entity in some spelling, or a numeric reference with its
      start in some spelling */
  datatype Piece =
    | Plain(octets: CString)
    | Named(entity: Entity, octets: CString)
    | Numeric(hex: bool, start: CString, digits: CString)

  function Raw(p: Piece): CString {
    match p
    case Plain(octets) => octets
    case Named(_, octets) => octets
    case Numeric(_, start, digits) => start + digits + Octets(";")
  }

  predicate IsSpelled(p: Piece) {
    match p
    case Plain(octets) => IsSequence(octets) && octets[0] != '&' as int
    case Named(e, octets) => IsInAnyCase(octets, EntityText(e))
    case Numeric(hex, start, digits) => IsInAnyCase(start, ReferenceStart(hex)) && AreDigits(digits, hex)
  }

  function CharOf(p: Piece): int
    requires IsSpelled(p)
  {
    match p
    case Plain(octets) => Bits(octets)
    case Named(e, _) => EntityChar(e)
    case Numeric(hex, _, digits) => Low(digits, hex)
  }

  predicate IsPiece(p: Piece) {
    IsSpelled(p) && IsChar(CharOf(p))
  }

  predicate ArePieces(ps: seq<Piece>) {
    forall k :: 0 <= k < |ps| ==> IsPiece(ps[k])
  }

  /** The text as it stands in the document */
  function RawText(ps: seq<Piece>): CString {
    if ps == [] then [] else Raw(ps[0]) + RawText(ps[1..])
  }

  /** The text that it stands for, in UTF-8 */
  function TextOf(ps: seq<Piece>): CString
    requires ArePieces(ps)
  {
    if ps == [] then []
    else
      assert IsPiece(ps[0]);
      EncodingHasNoNul(CharOf(ps[0]));
      IntToUtf8(CharOf(ps[0])) + TextOf(ps[1..])
  }

  lemma PlainIsRead(octets: CString, rest: CString)
    requires IsPiece(Plain(octets))
    ensures GetChar(octets + rest) == Decoded(Bits(octets), |octets|)
  {
    hide NumericReference;
    SequenceIsDecoded(octets, rest);
    assert (octets + rest)[0] == octets[0];
  }

  /** Every piece is read as its character, and copied as the encoding of it. */
  lemma PieceIsRead(p: Piece, rest: CString)
    requires IsPiece(p)
    ensures GetChar(Raw(p) + rest) == Decoded(CharOf(p), |Raw(p)|)
    ensures Raw(p) != [] && (|Raw(p)| == 1 ==> CharOf(p) < 0x80)
  {
    hide GetChar, Low, AreDigits, Bits;
    match p
    case Plain(octets) => PlainIsRead(octets, rest); OneOctet(octets);
    case Named(e, octets) => EntityIsRead(e, octets, rest);
    case Numeric(hex, start, digits) => ReferenceIsRead(start, digits, hex, rest);
  }

  lemma OneOctet(octets: CString)
    requires IsSequence(octets)
    ensures octets != [] && (|octets| == 1 ==> Bits(octets) < 0x80)
  {
  }

  /** `Parser_copyToken` turns the raw text into the text that it stands for. */
  lemma {:induction false} PiecesAreCopied(ps: seq<Piece>, rest: CString)
    requires ArePieces(ps)
    ensures CopyLoop(RawText(ps) + rest, |RawText(ps)|) == Some(TextOf(ps))
    decreases |ps|
  {
    hide GetChar, CopyLoop, CharOf, IsSpelled, Raw, IntToUtf8;
    if ps == [] {
      CopyNothing(RawText(ps) + rest);
    } else {
      var p, tl := ps[0], ps[1..];
      assert IsPiece(p);
      var r, rs := Raw(p), RawText(tl);
      PieceIsRead(p, rs + rest);
      assert r + rs + rest == r + (rs + rest);
      assert (r + (rs + rest))[|r|..] == rs + rest;
      PiecesAreCopied(tl, rest);
      CopyStep(r + (rs + rest), Decoded(CharOf(p), |r|), |rs|, TextOf(tl));
      OneOctetIsAscii(CharOf(p));
    }
  }

  lemma OneOctetIsAscii(c: int)
    requires 0 < c <= 0x10FFFF
    ensures c < 0x80 ==> IntToUtf8(c) == [c]
  {
  }

  // ---- Nothing else is read ----

  lemma NoCaseIs(s: CString, key: CString)
    requires StartsWithNoCase(s, key) && forall k :: 0 <= k < |key| ==> !(0x41 <= key[k] <= 0x5A)
    ensures |key| <= |s| && IsInAnyCase(s[..|key|], key)
  {
    forall k | 0 <= k < |key|
      ensures s[k] == key[k] || ('a' as int <= key[k] <= 'z' as int && s[k] == key[k] - 0x20)
    {
      assert ToLower(s[k]) == ToLower(key[k]) == key[k];
    }
  }

  /** The piece at the beginning of `s`, and what `Parser_getChar` makes of it */
  predicate Begins(s: CString, p: Piece)
    requires s != []
  {
    IsPiece(p) && |Raw(p)| <= |s| && s[..|Raw(p)|] == Raw(p) && GetChar(s) == Decoded(CharOf(p), |Raw(p)|)
  }

  lemma ItBegins(s: CString, p: Piece)
    requires s != [] && IsPiece(p) && |Raw(p)| <= |s| && s[..|Raw(p)|] == Raw(p)
    ensures Begins(s, p)
  {
    hide GetChar, IsPiece, Raw, CharOf;
    PieceIsRead(p, s[|Raw(p)|..]);
    assert s == Raw(p) + s[|Raw(p)|..];
  }

  lemma PlainIsSpelled(s: CString) returns (p: Piece)
    requires s != [] && s[0] != '&' as int && GetChar(s).ch > 0
    ensures Begins(s, p) && p == Plain(s[..GetChar(s).len])
  {
    hide Bits, StartsWithNoCase;
    assert Utf8ToInt(s).len > 0 by {
      if s[0] <= 0x7F {
        AsciiDecodes(s);
      }
    }
    DecodedIsSequence(s);
    var n := Utf8ToInt(s).len;
    p := Plain(s[..n]);
    assert IsXmlChar(Utf8ToInt(s).ch);
    assert s[..n][0] == s[0];
    ItBegins(s, p);
  }

  lemma EntityIsSpelled(s: CString, e: Entity) returns (p: Piece)
    requires s != [] && StartsWithNoCase(s, EntityText(e))
    ensures Begins(s, p)
  {
    hide GetChar;
    NoCaseIs(s, EntityText(e));
    p := Named(e, s[..|EntityText(e)|]);
    ItBegins(s, p);
  }

  lemma {:induction false} RunIsDigits(s: CString, hex: bool, sum: int)
    ensures var n := ReadRun(s, hex, sum).len; n <= |s| && AreDigits(s[..n], hex)
  {
    hide Wrap, DigitValue;
    if s != [] && IsDigit(s[0], hex) {
      RunIsDigits(s[1..], hex, Wrap(sum * Base(hex) + DigitValue(s[0])));
      var n := ReadRun(s, hex, sum).len;
      assert forall k :: 1 <= k < n ==> s[..n][k] == s[1..][..n - 1][k - 1];
    }
  }

  lemma NumericIsSpelled(s: CString, hex: bool) returns (p: Piece)
    requires s != [] && StartsWithNoCase(s, ReferenceStart(hex))
    requires NumericReference(s, |ReferenceStart(hex)|, hex).ch > 0
    ensures Begins(s, p)
  {
    hide GetChar, ReadRun, StartsWithNoCase, Low, AreDigits;
    var k := |ReferenceStart(hex)|;
    NoCaseIs(s, ReferenceStart(hex));
    RunIsDigits(s[k..], hex, 0);
    var n := ReadRun(s[k..], hex, 0).len;
    var ds := s[k..][..n];
    var rest := s[k + n..];
    assert s[k..] == ds + rest;
    assert rest[0] == ';' as int;
    NumberIsRead(s, k, ds, hex, rest);
    p := Numeric(hex, s[..k], ds);
    assert Raw(p) == s[..k + n + 1];
    ItBegins(s, p);
  }

  /** A character that is read was spelled by some piece. */
  lemma CharIsSpelled(s: CString) returns (p: Piece)
    requires s != [] && GetChar(s).ch > 0
    ensures Begins(s, p)
  {
    hide Begins, StartsWithNoCase, NumericReference, Utf8ToInt;
    ConstantsAgree();
    if s[0] != '&' as int {
      p := PlainIsSpelled(s);
    } else if StartsWithNoCase(s, EntityText(QUOT)) {
      p := EntityIsSpelled(s, QUOT);
    } else if StartsWithNoCase(s, EntityText(LT)) {
      p := EntityIsSpelled(s, LT);
    } else if StartsWithNoCase(s, EntityText(GT)) {
      p := EntityIsSpelled(s, GT);
    } else if StartsWithNoCase(s, EntityText(APOS)) {
      p := EntityIsSpelled(s, APOS);
    } else if StartsWithNoCase(s, EntityText(AMP)) {
      p := EntityIsSpelled(s, AMP);
    } else {
      p := NumericIsSpelled(s, StartsWithNoCase(s, ReferenceStart(true)));
    }
  }

  /** Text that is copied is a row of pieces, which stand for the copy. */
  lemma {:induction false} TextIsSpelled(s: CString, n: nat) returns (ps: seq<Piece>)
    requires n <= |s| && CopyLoop(s, n).Some?
    ensures ArePieces(ps) && RawText(ps) == s[..n] && CopyLoop(s, n) == Some(TextOf(ps))
    decreases |s|
  {
    hide GetChar, IsPiece, Raw, CharOf, IntToUtf8, TextOf;
    if n == 0 {
      ps := [];
      NothingIsSpelled();
      CopyNothing(s);
    } else {
      var p := CharIsSpelled(s);
      GetCharAdvances(s);
      var m := |Raw(p)|;
      var tl := TextIsSpelled(s[m..], n - m);
      ps := [p] + tl;
      assert ps[0] == p && ps[1..] == tl;
      assert s[..n] == s[..m] + s[m..][..n - m];
      PiecesAreCopied(ps, s[n..]);
      assert s[..n] + s[n..] == s;
    }
  }

  lemma NothingIsSpelled()
    ensures ArePieces([]) && RawText([]) == [] && TextOf([]) == []
  {
  }
}

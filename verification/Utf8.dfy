/** UTF-8 of one to six octets, section 2 of RFC 2279.
    The C code masks and shifts; on octets `x & 0x3f` is `x % 0x40`, `c >> 6` is `c / 0x40`,
    and or-ing disjoint bit groups is adding them. */
module Utf8 {
  import opened Bytes

  /** A decoded character and the number of octets it took; (-1, 0) for an invalid sequence. */
  datatype Decoded = Decoded(ch: int, len: nat)

  const INVALID := Decoded(-1, 0)

  predicate IsContinuation(b: Octet) {
    0x80 <= b < 0xC0
  }

  /** `Parser_UTF8ToInt` with no error character set. */
  function Utf8ToInt(s: seq<Octet>): Decoded {
    var c := At(s, 0);
    var s1, s2, s3, s4, s5 := At(s, 1), At(s, 2), At(s, 3), At(s, 4), At(s, 5);
    if c <= 0x7F then
      Decoded(c, 1)
    else if 0xC0 <= c < 0xE0 && IsContinuation(s1) then
      Decoded(c % 0x20 * 0x40 + s1 % 0x40, 2)
    else if 0xE0 <= c < 0xF0 && IsContinuation(s1) && IsContinuation(s2) then
      Decoded((c % 0x10 * 0x40 + s1 % 0x40) * 0x40 + s2 % 0x40, 3)
    else if 0xF0 <= c < 0xF8 && IsContinuation(s1) && IsContinuation(s2) && IsContinuation(s3) then
      Decoded(((c % 0x08 * 0x40 + s1 % 0x40) * 0x40 + s2 % 0x40) * 0x40 + s3 % 0x40, 4)
    else if 0xF8 <= c < 0xFC && IsContinuation(s1) && IsContinuation(s2) && IsContinuation(s3)
            && IsContinuation(s4) then
      Decoded((((c % 0x04 * 0x40 + s1 % 0x40) * 0x40 + s2 % 0x40) * 0x40 + s3 % 0x40) * 0x40
              + s4 % 0x40, 5)
    else if 0xFC <= c < 0xFE && IsContinuation(s1) && IsContinuation(s2) && IsContinuation(s3)
            && IsContinuation(s4) && IsContinuation(s5) then
      Decoded(((((c % 0x02 * 0x40 + s1 % 0x40) * 0x40 + s2 % 0x40) * 0x40 + s3 % 0x40) * 0x40
               + s4 % 0x40) * 0x40 + s5 % 0x40, 6)
    else
      INVALID
  }

  /** The octet that carries the low six bits of `c`. */
  function Tail(c: nat): Octet {
    0x80 + c % 0x40
  }

  /** `Parser_intToUTF8`: the octets written before the NUL; none for an illegal character. */
  function IntToUtf8(c: int): seq<Octet> {
    if c < 0 then []
    else if c <= 0x7F then [c]
    else if c <= 0x7FF then [0xC0 + c / 0x40, Tail(c)]
    else if c <= 0xFFFF then [0xE0 + c / 0x1000, Tail(c / 0x40), Tail(c)]
    else if c <= 0x1FFFFF then [0xF0 + c / 0x40000, Tail(c / 0x1000), Tail(c / 0x40), Tail(c)]
    else if c <= 0x3FFFFFF then
      [0xF8 + c / 0x1000000, Tail(c / 0x40000), Tail(c / 0x1000), Tail(c / 0x40), Tail(c)]
    else if c <= 0x7FFFFFFF then
      [0xFC + c / 0x40000000, Tail(c / 0x1000000), Tail(c / 0x40000), Tail(c / 0x1000), Tail(c / 0x40), Tail(c)]
    else []
  }

  /** Putting back the six bits that `Tail` kept. */
  lemma Unshift(q: nat)
    ensures q / 0x40 * 0x40 + Tail(q) % 0x40 == q
    ensures IsContinuation(Tail(q))
  {
  }

  /** Shifting down by twelve bits is shifting down twice by six, and so on. */
  lemma ShiftTwice(c: nat)
    ensures c / 0x40 / 0x40 == c / 0x1000
  {
  }

  lemma ShiftFurther(c: nat)
    ensures c / 0x1000 / 0x40 == c / 0x40000
  {
  }

  lemma ShiftFurthest(c: nat)
    ensures c / 0x40000 / 0x40 == c / 0x1000000
    ensures c / 0x1000000 / 0x40 == c / 0x40000000
  {
  }

  /** What decoding reads of an encoded character. */
  lemma ReadsEncoding(c: int, rest: seq<Octet>)
    requires 0 <= c <= 0x7FFFFFFF
    ensures forall k: nat :: k < |IntToUtf8(c)| ==> At(IntToUtf8(c) + rest, k) == IntToUtf8(c)[k]
  {
  }

  lemma DecodeUpTo3(c: int, rest: seq<Octet>)
    requires 0 <= c <= 0xFFFF
    ensures Utf8ToInt(IntToUtf8(c) + rest) == Decoded(c, |IntToUtf8(c)|)
  {
    Unshift(c);
    Unshift(c / 0x40);
    ShiftTwice(c);
    ReadsEncoding(c, rest);
  }

  lemma Decode4(c: int, rest: seq<Octet>)
    requires 0xFFFF < c <= 0x1FFFFF
    ensures Utf8ToInt(IntToUtf8(c) + rest) == Decoded(c, |IntToUtf8(c)|)
  {
    var q1, q2, q3 := c / 0x40, c / 0x1000, c / 0x40000;
    assert q2 == q1 / 0x40 && q3 == q2 / 0x40 by { ShiftTwice(c); ShiftFurther(c); }
    Unshift(c);
    Unshift(q1);
    Unshift(q2);
    ReadsEncoding(c, rest);
    assert IntToUtf8(c) == [0xF0 + q3, Tail(q2), Tail(q1), Tail(c)];
    assert (0xF0 + q3) % 0x08 == q3;
  }

  lemma Decode5(c: int, rest: seq<Octet>)
    requires 0x1FFFFF < c <= 0x3FFFFFF
    ensures Utf8ToInt(IntToUtf8(c) + rest) == Decoded(c, |IntToUtf8(c)|)
  {
    var q1, q2, q3, q4 := c / 0x40, c / 0x1000, c / 0x40000, c / 0x1000000;
    assert q2 == q1 / 0x40 && q3 == q2 / 0x40 && q4 == q3 / 0x40 by {
      ShiftTwice(c); ShiftFurther(c); ShiftFurthest(c);
    }
    Unshift(c);
    Unshift(q1);
    Unshift(q2);
    Unshift(q3);
    ReadsEncoding(c, rest);
    assert IntToUtf8(c) == [0xF8 + q4, Tail(q3), Tail(q2), Tail(q1), Tail(c)];
    assert (0xF8 + q4) % 0x04 == q4;
  }

  lemma Decode6(c: int, rest: seq<Octet>)
    requires 0x3FFFFFF < c <= 0x7FFFFFFF
    ensures Utf8ToInt(IntToUtf8(c) + rest) == Decoded(c, |IntToUtf8(c)|)
  {
    var q1, q2, q3, q4, q5 := c / 0x40, c / 0x1000, c / 0x40000, c / 0x1000000, c / 0x40000000;
    assert q2 == q1 / 0x40 && q3 == q2 / 0x40 && q4 == q3 / 0x40 && q5 == q4 / 0x40 by {
      ShiftTwice(c); ShiftFurther(c); ShiftFurthest(c);
    }
    Unshift(c);
    Unshift(q1);
    Unshift(q2);
    Unshift(q3);
    Unshift(q4);
    ReadsEncoding(c, rest);
    assert IntToUtf8(c) == [0xFC + q5, Tail(q4), Tail(q3), Tail(q2), Tail(q1), Tail(c)];
    assert (0xFC + q5) % 0x02 == q5;
  }

  /** Decoding undoes encoding over the whole 31-bit range, and takes exactly the encoded octets
      whatever follows them. */
  lemma DecodeEncode(c: int, rest: seq<Octet>)
    requires 0 <= c <= 0x7FFFFFFF
    ensures Utf8ToInt(IntToUtf8(c) + rest) == Decoded(c, |IntToUtf8(c)|)
  {
    if c <= 0xFFFF {
      DecodeUpTo3(c, rest);
    } else if c <= 0x1FFFFF {
      Decode4(c, rest);
    } else if c <= 0x3FFFFFF {
      Decode5(c, rest);
    } else {
      Decode6(c, rest);
    }
  }

  /** A successful decoding looks only at the octets it takes. */
  lemma DecodeLocal(s: seq<Octet>, rest: seq<Octet>)
    requires s != [] && Utf8ToInt(s).len > 0
    ensures Utf8ToInt(s).len <= |s|
    ensures Utf8ToInt(s + rest) == Utf8ToInt(s)
  {
    assert forall k: nat :: k < |s| ==> At(s + rest, k) == At(s, k);
  }

  lemma AsciiDecodes(s: seq<Octet>)
    requires s != [] && s[0] <= 0x7F
    ensures Utf8ToInt(s) == Decoded(s[0], 1)
  {
  }

  /** `Parser_isXmlChar`: section 2.2 of XML 1.0 (2nd edition). */
  predicate IsXmlChar(c: int) {
    c == TAB || c == LF || c == CR
    || 0x20 <= c <= 0xD7FF
    || 0xE000 <= c <= 0xFFFD
    || 0x10000 <= c <= 0x10FFFF
  }

  /** A string of XML characters, each in its minimal encoding. */
  predicate IsXmlText(s: CString)
    decreases |s|
  {
    s == []
    || var d := Utf8ToInt(s);
       0 < d.len <= |s| && IsXmlChar(d.ch) && IntToUtf8(d.ch) == s[..d.len] && IsXmlText(s[d.len..])
  }

  /** An encoded non-zero character holds no NUL, so it can be stored in a C string. */
  lemma EncodingHasNoNul(c: int)
    requires 0 < c <= 0x7FFFFFFF
    ensures forall k :: 0 <= k < |IntToUtf8(c)| ==> IntToUtf8(c)[k] > 0
    ensures 0 < |IntToUtf8(c)| <= 6
    ensures |IntToUtf8(c)| == 1 <==> c <= 0x7F
  {
  }

  // ---- The table of section 2 of RFC 2279 ----

  /** A first octet that tells the length by its leading bits, and octets 10xxxxxx behind it */
  predicate IsSequence(e: seq<Octet>) {
    && (match |e|
        case 1 => e[0] < 0x80
        case 2 => 0xC0 <= e[0] < 0xE0
        case 3 => 0xE0 <= e[0] < 0xF0
        case 4 => 0xF0 <= e[0] < 0xF8
        case 5 => 0xF8 <= e[0] < 0xFC
        case 6 => 0xFC <= e[0] < 0xFE
        case _ => false)
    && forall k :: 1 <= k < |e| ==> 0x80 <= e[k] < 0xC0
  }

  /** The number that the x-bits make up */
  function Bits(e: seq<Octet>): int
    requires IsSequence(e)
  {
    var lead := if |e| == 1 then 0 else if |e| == 2 then 0xC0 else if |e| == 3 then 0xE0 else if |e| == 4 then 0xF0
                else if |e| == 5 then 0xF8 else 0xFC;
    Append(e, |e|, e[0] as int - lead)
  }

  /** The bits `high` with the six bits of each octet up to number `n` behind them */
  function Append(e: seq<Octet>, n: nat, high: int): int
    requires n <= |e|
    decreases n
  {
    if n <= 1 then high else Append(e, n - 1, high) * 64 + (e[n - 1] as int - 0x80)
  }

  lemma AppendStep(e: seq<Octet>, n: nat, high: int)
    requires 1 < n <= |e| && 0x80 <= e[n - 1] < 0xC0
    ensures Append(e, n, high) == Append(e, n - 1, high) * 0x40 + e[n - 1] % 0x40
    ensures IsContinuation(e[n - 1])
  {
  }

  lemma AppendNone(e: seq<Octet>, high: int)
    requires e != []
    ensures Append(e, 1, high) == high
  {
  }

  lemma LeadBits(e: seq<Octet>)
    requires IsSequence(e)
    ensures |e| == 2 ==> e[0] % 0x20 == e[0] as int - 0xC0
    ensures |e| == 3 ==> e[0] % 0x10 == e[0] as int - 0xE0
    ensures |e| == 4 ==> e[0] % 0x08 == e[0] as int - 0xF0
    ensures |e| == 5 ==> e[0] % 0x04 == e[0] as int - 0xF8
    ensures |e| == 6 ==> e[0] % 0x02 == e[0] as int - 0xFC
  {
  }

  /** Every sequence of the table is decoded as its number, whatever follows it. */
  lemma SequenceIsDecoded(e: seq<Octet>, rest: seq<Octet>)
    requires IsSequence(e)
    ensures Utf8ToInt(e + rest) == Decoded(Bits(e), |e|)
  {
    hide Append;
    assert forall k: nat :: k < |e| ==> At(e + rest, k) == e[k];
    LeadBits(e);
    var high := e[0] as int - (if |e| == 1 then 0 else if |e| == 2 then 0xC0 else if |e| == 3 then 0xE0
                               else if |e| == 4 then 0xF0 else if |e| == 5 then 0xF8 else 0xFC);
    AppendNone(e, high);
    if |e| >= 2 { AppendStep(e, 2, high); }
    if |e| >= 3 { AppendStep(e, 3, high); }
    if |e| >= 4 { AppendStep(e, 4, high); }
    if |e| >= 5 { AppendStep(e, 5, high); }
    if |e| >= 6 { AppendStep(e, 6, high); }
  }

  /** A number is encoded as the shortest sequence of the table for it. */
  lemma EncodingIsSequence(c: int)
    requires 0 <= c <= 0x7FFFFFFF
    ensures var e := IntToUtf8(c);
      && IsSequence(e) && Bits(e) == c
      && |e| == if c < 0x80 then 1 else if c < 0x800 then 2 else if c < 0x10000 then 3 else if c < 0x200000 then 4
                else if c < 0x4000000 then 5 else 6
  {
    hide Utf8ToInt;
    DecodeEncode(c, []);
    SequenceIsDecoded(IntToUtf8(c), []);
  }

  /** Nothing else is decoded. */
  lemma DecodedIsSequence(s: seq<Octet>)
    requires s != [] && Utf8ToInt(s).len > 0
    ensures var d := Utf8ToInt(s); d.len <= |s| && IsSequence(s[..d.len]) && Bits(s[..d.len]) == d.ch
  {
    hide Bits;
    DecodeLocal(s, []);
    var n := Utf8ToInt(s).len;
    assert forall k: nat :: k < n ==> At(s, k) == s[..n][k];
    SequenceIsDecoded(s[..n], s[n..]);
    assert s[..n] + s[n..] == s;
  }
}

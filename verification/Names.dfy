/** Name characters and name tokens. The Letter and NameChar tables are parameters: all that the
    parser relies on is that they hold XML characters and none of the markup. */
module Names {
  import opened Bytes
  import opened Utf8

  predicate IsMarkup(c: int) {
    IsSpace(c) || c == BANG || c == QUOTE || c == AMPERSAND || c == SINGLEQUOTE || c == SLASH
    || c == LESSTHAN || c == EQUALS || c == GREATERTHAN || c == QUESTION
  }

  datatype CharTables = CharTables(letter: int -> bool, nameChar: int -> bool) {
    /** `Parser_isNameChar(c, FALSE)` */
    predicate IsLetter(c: int) {
      letter(c)
    }

    /** `Parser_isNameChar(c, TRUE)` */
    predicate IsNameChar(c: int) {
      letter(c) || nameChar(c)
    }

    ghost predicate Valid() {
      forall c :: IsNameChar(c) ==> IsXmlChar(c) && !IsMarkup(c)
    }
  }

  type Tables = t: CharTables | t.Valid() witness CharTables(c => c == 0x41, c => c == 0x41)

  lemma NameCharAdvances(t: Tables, s: CString)
    requires t.IsNameChar(Utf8ToInt(s).ch)
    ensures s != [] && 0 < Utf8ToInt(s).len <= |s|
  {
    assert t.Valid();
    if s != [] {
      DecodeLocal(s, []);
    }
  }

  /** The number of octets of `s` that the scanning loop of `Parser_getNextToken` takes. */
  function NameLength(t: Tables, s: CString): nat
    decreases |s|
  {
    var d := Utf8ToInt(s);
    if t.IsNameChar(d.ch) then
      NameCharAdvances(t, s);
      d.len + NameLength(t, s[d.len..])
    else 0
  }

  /** A name that the tokenizer takes as one token: a letter, then name characters only. */
  predicate IsName(t: Tables, name: CString) {
    name != [] && IsXmlText(name) && t.IsLetter(Utf8ToInt(name).ch) && NameLength(t, name) == |name|
  }

  lemma {:induction false} NameLengthBound(t: Tables, s: CString)
    ensures NameLength(t, s) <= |s|
    ensures t.IsNameChar(Utf8ToInt(s).ch) ==> 0 < NameLength(t, s)
    decreases |s|
  {
    var d := Utf8ToInt(s);
    if t.IsNameChar(d.ch) {
      NameCharAdvances(t, s);
      NameLengthBound(t, s[d.len..]);
    }
  }

  /** The scan of a name stops at the first character behind it that is no name character. */
  lemma {:induction false} NameStops(t: Tables, name: CString, rest: CString)
    requires IsXmlText(name) && NameLength(t, name) == |name|
    requires !t.IsNameChar(Utf8ToInt(rest).ch)
    ensures NameLength(t, name + rest) == |name|
    decreases |name|
  {
    if name == [] {
      assert name + rest == rest;
      assert t.Valid();
    } else {
      var d := Utf8ToInt(name);
      DecodeLocal(name, rest);
      NameLengthBound(t, name);
      assert (name + rest)[d.len..] == name[d.len..] + rest;
      NameStops(t, name[d.len..], rest);
    }
  }

  // ---- What a name is ----

  /** The characters one after the other, each in its shortest encoding */
  function Encoded(chars: seq<int>): seq<Octet> {
    if chars == [] then [] else IntToUtf8(chars[0]) + Encoded(chars[1..])
  }

  /** `name` is spelled by characters of which the first is a letter and the others are name characters. */
  ghost predicate Spells(t: Tables, chars: seq<int>, name: CString) {
    && name == Encoded(chars) && chars != [] && t.letter(chars[0])
    && forall k :: 0 <= k < |chars| ==> t.letter(chars[k]) || t.nameChar(chars[k])
  }

  lemma {:induction false} EncodedIsScanned(t: Tables, chars: seq<int>, s: CString)
    requires s == Encoded(chars) && forall k :: 0 <= k < |chars| ==> t.IsNameChar(chars[k])
    ensures IsXmlText(s) && NameLength(t, s) == |s|
  {
    hide IntToUtf8, Utf8ToInt;
    if chars == [] {
      AtEnd(t);
    } else {
      assert t.Valid() && t.IsNameChar(chars[0]);
      var e, tl := IntToUtf8(chars[0]), Encoded(chars[1..]);
      DecodeEncode(chars[0], tl);
      EncodingHasNoNul(chars[0]);
      assert s[|e|..] == tl && s[..|e|] == e;
      EncodedIsScanned(t, chars[1..], s[|e|..]);
    }
  }

  lemma AtEnd(t: Tables)
    ensures NameLength(t, []) == 0 && IsXmlText([])
  {
    assert t.Valid() && Utf8ToInt([]).ch == 0;
  }

  lemma {:induction false} ScannedIsEncoded(t: Tables, s: CString) returns (chars: seq<int>)
    requires IsXmlText(s) && NameLength(t, s) == |s|
    ensures s == Encoded(chars) && forall k :: 0 <= k < |chars| ==> t.IsNameChar(chars[k])
    ensures s != [] ==> chars != [] && chars[0] == Utf8ToInt(s).ch
    decreases |s|
  {
    hide IntToUtf8, Utf8ToInt;
    if s == [] {
      chars := [];
    } else {
      NameLengthBound(t, s);
      var d := Utf8ToInt(s);
      var tl := ScannedIsEncoded(t, s[d.len..]);
      chars := [d.ch] + tl;
      assert chars[1..] == tl && s == s[..d.len] + s[d.len..];
    }
  }

  /** The tokenizer takes a string as a name exactly if it is a letter and name characters, in whatever number, and each
      in its shortest encoding. */
  lemma NamesAreSpelled(t: Tables, name: CString)
    ensures IsName(t, name) <==> exists chars :: Spells(t, chars, name)
  {
    hide IntToUtf8, Utf8ToInt, NameLength, IsXmlText, Encoded;
    if IsName(t, name) {
      var chars := ScannedIsEncoded(t, name);
      assert Spells(t, chars, name);
    }
    if chars :| Spells(t, chars, name) {
      EncodedIsScanned(t, chars, name);
      FirstIsLetter(t, chars, name);
    }
  }

  lemma FirstIsLetter(t: Tables, chars: seq<int>, name: CString)
    requires Spells(t, chars, name)
    ensures name != [] && Utf8ToInt(name).ch == chars[0]
  {
    hide IntToUtf8, Utf8ToInt;
    assert t.Valid() && t.IsNameChar(chars[0]);
    DecodeEncode(chars[0], Encoded(chars[1..]));
    EncodingHasNoNul(chars[0]);
  }
}

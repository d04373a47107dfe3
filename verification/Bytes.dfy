/** NUL-terminated C strings as sequences of non-zero octets.
    A `char *` that the parser walks along a buffer is the suffix of the buffer that it points at. */
module Bytes {

  type Octet = n: int | 0 <= n < 256
  type Byte = n: int | 0 < n < 256 witness 1
  type CString = seq<Byte>

  const TAB := 0x09
  const LF := 0x0A
  const CR := 0x0D
  const SPACE := 0x20
  const BANG := 0x21
  const QUOTE := 0x22
  const AMPERSAND := 0x26
  const SINGLEQUOTE := 0x27
  const DASH := 0x2D
  const SLASH := 0x2F
  const LESSTHAN := 0x3C
  const EQUALS := 0x3D
  const GREATERTHAN := 0x3E
  const QUESTION := 0x3F
  const RBRACKET := 0x5D

  /** `s[i]` in C: the octet at `i`, or the terminating NUL. */
  function At(s: seq<Octet>, i: nat): Octet {
    if i < |s| then s[i] else 0
  }

  /** `strncmp(s, key, strlen(key)) == 0` */
  predicate StartsWith(s: CString, key: CString) {
    |key| <= |s| && s[..|key|] == key
  }

  /** `tolower` in the C locale */
  function ToLower(b: Byte): Byte {
    if 0x41 <= b <= 0x5A then b + 0x20 else b
  }

  /** `strncasecmp(s, key, strlen(key)) == 0` */
  predicate StartsWithNoCase(s: CString, key: CString) {
    |key| <= |s| && forall k :: 0 <= k < |key| ==> ToLower(s[k]) == ToLower(key[k])
  }

  /** `strchr("\n\t\r ", b) != NULL` for a non-zero `b` */
  predicate IsSpace(b: int) {
    b == LF || b == TAB || b == CR || b == SPACE
  }

  predicate AllSpace(s: CString) {
    forall k :: 0 <= k < |s| ==> IsSpace(s[k])
  }

  /** The suffix that is left after the leading white space. */
  function SkipSpace(s: CString): CString {
    if s != [] && IsSpace(s[0]) then SkipSpace(s[1..]) else s
  }

  /** `strstr(s, key)` as an offset; |s| when there is no occurrence. */
  function Find(s: CString, key: CString): nat
    decreases |s|
  {
    if s == [] || StartsWith(s, key) then 0 else 1 + Find(s[1..], key)
  }

  lemma {:induction false} SkipSpaceLength(s: CString)
    ensures |SkipSpace(s)| <= |s|
    ensures SkipSpace(s) == s[|s| - |SkipSpace(s)|..]
    ensures AllSpace(s[..|s| - |SkipSpace(s)|])
    ensures SkipSpace(s) != [] ==> !IsSpace(SkipSpace(s)[0])
  {
    if s != [] && IsSpace(s[0]) {
      SkipSpaceLength(s[1..]);
    }
  }

  lemma {:induction false} SkipSpacePrefix(w: CString, s: CString)
    requires AllSpace(w)
    requires s == [] || !IsSpace(s[0])
    ensures SkipSpace(w + s) == s
  {
    if w == [] {
      assert w + s == s;
    } else {
      assert (w + s)[1..] == w[1..] + s;
      SkipSpacePrefix(w[1..], s);
    }
  }

  lemma {:induction false} FindBound(s: CString, key: CString)
    ensures Find(s, key) <= |s|
    ensures Find(s, key) < |s| ==> StartsWith(s[Find(s, key)..], key)
    ensures forall j :: 0 <= j < Find(s, key) ==> !StartsWith(s[j..], key)
    decreases |s|
  {
    if s == [] || StartsWith(s, key) {
      assert s[0..] == s;
    } else {
      FindBound(s[1..], key);
      var i := Find(s[1..], key);
      assert i < |s| - 1 ==> s[1..][i..] == s[i + 1..];
      forall j | 0 <= j < 1 + i
        ensures !StartsWith(s[j..], key)
      {
        if j == 0 {
          assert s[0..] == s;
        } else {
          assert s[1..][j - 1..] == s[j..];
        }
      }
    }
  }

  /** `Find` is the first occurrence: any offset with these properties is the one it returns. */
  lemma {:induction false} FindIs(s: CString, key: CString, i: nat)
    requires i < |s| && StartsWith(s[i..], key)
    requires forall j :: 0 <= j < i ==> !StartsWith(s[j..], key)
    ensures Find(s, key) == i
    decreases |s|
  {
    assert s[0..] == s;
    if i > 0 {
      assert !StartsWith(s[0..], key);
      assert s[1..][i - 1..] == s[i..];
      forall j | 0 <= j < i - 1
        ensures !StartsWith(s[1..][j..], key)
      {
        assert s[1..][j..] == s[j + 1..];
      }
      FindIs(s[1..], key, i - 1);
    }
  }
}

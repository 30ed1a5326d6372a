/** Well-formed UTF-8, the check `String::from_utf8` makes before the codec accepts a
    string: the byte sequences of Table 3-7 of the Unicode Standard (section 3.9),
    which exclude overlong forms, surrogates and code points above U+10FFFF. */
module Utf8 {
  import opened Domain

  predicate Continuation(b: byte) {
    0x80 <= b <= 0xBF
  }

  /** The number of bytes of the well-formed sequence that starts `s`, or 0 when
      `s` does not start with one. */
  function LeadingCharLength(s: seq<byte>): (n: nat)
    ensures n <= 4 && n <= |s|
    ensures n > 0 ==> |s| > 0
  {
    if |s| == 0 then 0
    else if s[0] <= 0x7F then 1
    else if 0xC2 <= s[0] <= 0xDF then
      if |s| >= 2 && Continuation(s[1]) then 2 else 0
    else if s[0] == 0xE0 then
      if |s| >= 3 && 0xA0 <= s[1] <= 0xBF && Continuation(s[2]) then 3 else 0
    else if 0xE1 <= s[0] <= 0xEC || 0xEE <= s[0] <= 0xEF then
      if |s| >= 3 && Continuation(s[1]) && Continuation(s[2]) then 3 else 0
    else if s[0] == 0xED then
      if |s| >= 3 && 0x80 <= s[1] <= 0x9F && Continuation(s[2]) then 3 else 0
    else if s[0] == 0xF0 then
      if |s| >= 4 && 0x90 <= s[1] <= 0xBF && Continuation(s[2]) && Continuation(s[3]) then 4 else 0
    else if 0xF1 <= s[0] <= 0xF3 then
      if |s| >= 4 && Continuation(s[1]) && Continuation(s[2]) && Continuation(s[3]) then 4 else 0
    else if s[0] == 0xF4 then
      if |s| >= 4 && 0x80 <= s[1] <= 0x8F && Continuation(s[2]) && Continuation(s[3]) then 4 else 0
    else 0
  }

  /** `s` is a concatenation of well-formed UTF-8 sequences. */
  predicate ValidUtf8(s: seq<byte>)
    decreases |s|
  {
    |s| == 0 || (LeadingCharLength(s) > 0 && ValidUtf8(s[LeadingCharLength(s)..]))
  }

  /** The bytes of one character can be read off a longer sequence. */
  lemma LeadingCharLengthPrefix(s: seq<byte>, t: seq<byte>)
    requires LeadingCharLength(s) > 0
    ensures LeadingCharLength(s + t) == LeadingCharLength(s)
  {
  }

  /** Two well-formed strings concatenate to a well-formed string. */
  lemma {:induction false} ValidUtf8Concat(a: seq<byte>, b: seq<byte>)
    requires ValidUtf8(a) && ValidUtf8(b)
    ensures ValidUtf8(a + b)
    decreases |a|
  {
    if |a| == 0 {
      assert a + b == b;
    } else {
      var n := LeadingCharLength(a);
      LeadingCharLengthPrefix(a, b);
      assert (a + b)[n..] == a[n..] + b;
      ValidUtf8Concat(a[n..], b);
    }
  }

  /** Every ASCII string is well-formed UTF-8. */
  lemma {:induction false} AsciiIsValid(s: seq<byte>)
    requires forall i :: 0 <= i < |s| ==> s[i] <= 0x7F
    ensures ValidUtf8(s)
    decreases |s|
  {
    if |s| > 0 {
      AsciiIsValid(s[1..]);
    }
  }

  /** A byte that can never occur in UTF-8 (0xC0, 0xC1, 0xF5..0xFF) makes any string
      containing it invalid. */
  lemma {:induction false} ForbiddenByteInvalid(s: seq<byte>, i: nat)
    requires i < |s| && (s[i] == 0xC0 || s[i] == 0xC1 || s[i] >= 0xF5)
    ensures !ValidUtf8(s)
    decreases |s|
  {
    var n := LeadingCharLength(s);
    if n > 0 && i >= n {
      ForbiddenByteInvalid(s[n..], i - n);
    }
  }
}

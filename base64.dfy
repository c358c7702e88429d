/**
 * Base64 as defined in section 4 of RFC 4648 (alphabet A-Z a-z 0-9 + /, "="
 * padding), together with the "forgiving-base64 decode" algorithm of the
 * WHATWG Infra standard, which is what the browser's atob runs.
 */
module Base64 {
  import opened Wrappers

  newtype byte = x: int | 0 <= x < 256

  /** The character of the alphabet with the given 6-bit index. */
  function CharOf(i: int): (c: char)
    requires 0 <= i < 64
    ensures IsAlphabetChar(c)
  {
    if i < 26 then ('A' as int + i) as char
    else if i < 52 then ('a' as int + i - 26) as char
    else if i < 62 then ('0' as int + i - 52) as char
    else if i == 62 then '+'
    else '/'
  }

  predicate IsAlphabetChar(c: char) {
    ('A' <= c <= 'Z') || ('a' <= c <= 'z') || ('0' <= c <= '9') || c == '+' || c == '/'
  }

  predicate AllAlphabet(t: string) {
    forall k :: 0 <= k < |t| ==> IsAlphabetChar(t[k])
  }

  /** The 6-bit index of an alphabet character: the inverse of CharOf. */
  function IndexOf(c: char): (i: int)
    requires IsAlphabetChar(c)
    ensures 0 <= i < 64 && CharOf(i) == c
  {
    if 'A' <= c <= 'Z' then c as int - 'A' as int
    else if 'a' <= c <= 'z' then c as int - 'a' as int + 26
    else if '0' <= c <= '9' then c as int - '0' as int + 52
    else if c == '+' then 62
    else 63
  }

  lemma IndexOfCharOf(i: int)
    requires 0 <= i < 64
    ensures IndexOf(CharOf(i)) == i
  {
  }

  /** Three bytes as four alphabet characters, six bits each, high bits first. */
  function EncodeTriple(b0: byte, b1: byte, b2: byte): (q: string)
    ensures |q| == 4 && AllAlphabet(q)
  {
    var x0, x1, x2 := b0 as int, b1 as int, b2 as int;
    [CharOf(x0 / 4), CharOf(x0 % 4 * 16 + x1 / 16), CharOf(x1 % 16 * 4 + x2 / 64), CharOf(x2 % 64)]
  }

  /** A final group of one or two bytes: the first two or three characters
    * of its triple, the missing bytes taken as zero. */
  function EncodeTail(b: seq<byte>): (s: string)
    requires 1 <= |b| <= 2
    ensures |s| == |b| + 1 && AllAlphabet(s)
  {
    if |b| == 2 then EncodeTriple(b[0], b[1], 0)[..3]
    else EncodeTriple(b[0], 0, 0)[..2]
  }

  lemma AddFourMod(n: nat)
    ensures (4 + n) % 4 == n % 4
  {
  }

  /** The alphabet characters of the encoding, without the "=" padding. */
  function EncodeUnpadded(b: seq<byte>): (s: string)
    ensures |s| % 4 != 1 && AllAlphabet(s)
  {
    if |b| >= 3 then
      var q, rest := EncodeTriple(b[0], b[1], b[2]), EncodeUnpadded(b[3..]);
      assert |q + rest| % 4 == |rest| % 4 by { AddFourMod(|rest|); }
      q + rest
    else if |b| >= 1 then EncodeTail(b)
    else []
  }

  /** RFC 4648 Base64: every 3 bytes become 4 characters, and a final group
    * of 1 or 2 bytes is padded with "==" or "=". */
  function Encode(b: seq<byte>): (s: string)
    ensures |s| == 4 * ((|b| + 2) / 3)
    ensures forall k :: 0 <= k < |s| ==> IsAlphabetChar(s[k]) || s[k] == '='
  {
    UnpaddedLength(b);
    LengthArithmetic(|b|, |EncodeUnpadded(b)|);
    EncodeUnpadded(b) + Padding(|b|)
  }

  function Padding(n: nat): (p: string)
    ensures forall k :: 0 <= k < |p| ==> p[k] == '='
  {
    if n % 3 == 1 then "==" else if n % 3 == 2 then "=" else ""
  }

  predicate IsAsciiWhitespace(c: char) {
    c == '\t' || c == '\n' || c == '\U{000C}' || c == '\r' || c == ' '
  }

  /** Step 1 of forgiving-base64 decode: drop ASCII whitespace. */
  function RemoveWhitespace(s: string): (r: string)
    ensures forall k :: 0 <= k < |r| ==> !IsAsciiWhitespace(r[k])
    ensures |r| <= |s|
  {
    if s == [] then []
    else if IsAsciiWhitespace(s[0]) then RemoveWhitespace(s[1..])
    else [s[0]] + RemoveWhitespace(s[1..])
  }

  /** Step 2: when the length is a multiple of 4, drop one or two trailing "=". */
  function RemovePadding(s: string): (r: string)
    ensures |r| <= |s| && r == s[..|r|]
  {
    if |s| % 4 == 0 && |s| >= 2 && s[|s| - 2..] == "==" then s[..|s| - 2]
    else if |s| % 4 == 0 && |s| >= 1 && s[|s| - 1] == '=' then s[..|s| - 1]
    else s
  }

  /** Four alphabet characters as three bytes; with fewer characters only
    * the bytes they fully cover are produced. */
  function DecodeQuad(q: string): (b: seq<byte>)
    requires 2 <= |q| <= 4 && AllAlphabet(q)
    ensures |b| == |q| - 1
  {
    var c2 := if |q| > 2 then IndexOf(q[2]) else 0;
    var c3 := if |q| > 3 then IndexOf(q[3]) else 0;
    JoinSextets(IndexOf(q[0]), IndexOf(q[1]), c2, c3)[..|q| - 1]
  }

  /** Step 5: each 4 characters give 3 bytes; a final 3 or 2 characters give
    * 2 or 1 bytes, and the bits left over are dropped. */
  function DecodeChars(s: string): (b: seq<byte>)
    requires |s| % 4 != 1 && AllAlphabet(s)
  {
    if |s| >= 4 then DecodeQuad(s[..4]) + DecodeChars(s[4..])
    else if |s| >= 2 then DecodeQuad(s)
    else []
  }

  /** Forgiving-base64 decode; None is the failure that makes atob throw
    * (steps 3 and 4: a length of 1 modulo 4, or a character outside the
    * alphabet, "=" included, after padding removal). */
  function Decode(s: string): (r: Option<seq<byte>>)
  {
    var t := RemovePadding(RemoveWhitespace(s));
    if |t| % 4 == 1 || !AllAlphabet(t) then None
    else Some(DecodeChars(t))
  }

  /** The three bytes a group of four 6-bit indices stands for. */
  function JoinSextets(c0: int, c1: int, c2: int, c3: int): (b: seq<byte>)
    requires 0 <= c0 < 64 && 0 <= c1 < 64 && 0 <= c2 < 64 && 0 <= c3 < 64
    ensures |b| == 3
  {
    [(c0 * 4 + c1 / 16) as byte, (c1 % 16 * 16 + c2 / 4) as byte, (c2 % 4 * 64 + c3) as byte]
  }

  lemma JoinSplit(x0: int, x1: int, x2: int)
    requires 0 <= x0 < 256 && 0 <= x1 < 256 && 0 <= x2 < 256
    ensures JoinSextets(x0 / 4, x0 % 4 * 16 + x1 / 16, x1 % 16 * 4 + x2 / 64, x2 % 64)
         == [x0 as byte, x1 as byte, x2 as byte]
  {
    assert (x0 % 4 * 16 + x1 / 16) / 16 == x0 % 4;
    assert (x0 % 4 * 16 + x1 / 16) % 16 == x1 / 16;
    assert (x1 % 16 * 4 + x2 / 64) / 4 == x1 % 16;
    assert (x1 % 16 * 4 + x2 / 64) % 4 == x2 / 64;
  }

  lemma IndicesOfTriple(b0: byte, b1: byte, b2: byte)
    ensures var q, x0, x1, x2 := EncodeTriple(b0, b1, b2), b0 as int, b1 as int, b2 as int;
      IndexOf(q[0]) == x0 / 4 && IndexOf(q[1]) == x0 % 4 * 16 + x1 / 16 &&
      IndexOf(q[2]) == x1 % 16 * 4 + x2 / 64 && IndexOf(q[3]) == x2 % 64
  {
    var x0, x1, x2 := b0 as int, b1 as int, b2 as int;
    IndexOfCharOf(x0 / 4);
    IndexOfCharOf(x0 % 4 * 16 + x1 / 16);
    IndexOfCharOf(x1 % 16 * 4 + x2 / 64);
    IndexOfCharOf(x2 % 64);
  }

  lemma DecodeQuadEncodeTriple(b0: byte, b1: byte, b2: byte, n: nat)
    requires 2 <= n <= 4
    ensures DecodeQuad(EncodeTriple(b0, b1, b2)[..n]) == [b0, b1, b2][..n - 1]
  {
    var q := EncodeTriple(b0, b1, b2);
    IndicesOfTriple(b0, b1, b2);
    JoinSplit(b0 as int, b1 as int, b2 as int);
    var c2 := if n > 2 then IndexOf(q[2]) else 0;
    var c3 := if n > 3 then IndexOf(q[3]) else 0;
    assert DecodeQuad(q[..n]) == JoinSextets(IndexOf(q[0]), IndexOf(q[1]), c2, c3)[..n - 1];
  }

  lemma DecodeCharsAppend(q: string, r: string)
    requires |q| == 4 && AllAlphabet(q)
    requires |r| % 4 != 1 && AllAlphabet(r)
    ensures DecodeChars(q + r) == DecodeQuad(q) + DecodeChars(r)
  {
    var s := q + r;
    assert s[..4] == q;
    assert s[4..] == r;
  }

  lemma DecodeEncodeTail(b: seq<byte>)
    requires 1 <= |b| <= 2
    ensures DecodeChars(EncodeTail(b)) == b
  {
    if |b| == 2 {
      DecodeQuadEncodeTriple(b[0], b[1], 0, 3);
    } else {
      DecodeQuadEncodeTriple(b[0], 0, 0, 2);
    }
  }

  lemma DecodeTriple(b0: byte, b1: byte, b2: byte)
    ensures DecodeQuad(EncodeTriple(b0, b1, b2)) == [b0, b1, b2]
  {
    var q := EncodeTriple(b0, b1, b2);
    assert q[..4] == q;
    DecodeQuadEncodeTriple(b0, b1, b2, 4);
  }

  lemma UnfoldUnpadded(b: seq<byte>)
    requires |b| >= 3
    ensures DecodeChars(EncodeUnpadded(b))
         == DecodeQuad(EncodeTriple(b[0], b[1], b[2])) + DecodeChars(EncodeUnpadded(b[3..]))
  {
    var q := EncodeTriple(b[0], b[1], b[2]);
    var rest := EncodeUnpadded(b[3..]);
    assert EncodeUnpadded(b) == q + rest;
    DecodeCharsAppend(q, rest);
  }

  lemma DecodeFirstTriple(b: seq<byte>)
    requires |b| >= 3
    ensures DecodeQuad(EncodeTriple(b[0], b[1], b[2])) == b[..3]
  {
    DecodeTriple(b[0], b[1], b[2]);
    assert [b[0], b[1], b[2]] == b[..3];
  }

  lemma {:induction false} DecodeEncodeUnpadded(b: seq<byte>)
    ensures DecodeChars(EncodeUnpadded(b)) == b
    decreases |b|
  {
    if |b| >= 3 {
      UnfoldUnpadded(b);
      DecodeFirstTriple(b);
      DecodeEncodeUnpadded(b[3..]);
      assert b == b[..3] + b[3..];
    } else if |b| >= 1 {
      DecodeEncodeTail(b);
    }
  }

  lemma {:induction false} RemoveWhitespaceOfClean(s: string)
    requires forall k :: 0 <= k < |s| ==> !IsAsciiWhitespace(s[k])
    ensures RemoveWhitespace(s) == s
  {
    if s != [] {
      RemoveWhitespaceOfClean(s[1..]);
    }
  }

  lemma LengthArithmetic(len: nat, u: nat)
    requires u == 4 * (len / 3) + (if len % 3 == 0 then 0 else len % 3 + 1)
    ensures u + |Padding(len)| == 4 * ((len + 2) / 3)
    ensures (u + |Padding(len)|) % 4 == 0
  {
    var n := len / 3;
    assert len == 3 * n + len % 3;
    assert (len + 2) / 3 == n + (if len % 3 == 0 then 0 else 1);
  }

  lemma ThirdsStep(n: nat)
    requires n >= 3
    ensures (n - 3) / 3 == n / 3 - 1 && (n - 3) % 3 == n % 3
  {
  }

  lemma {:induction false} UnpaddedLength(b: seq<byte>)
    ensures |EncodeUnpadded(b)| == 4 * (|b| / 3) + (if |b| % 3 == 0 then 0 else |b| % 3 + 1)
    decreases |b|
  {
    if |b| >= 3 {
      UnpaddedLength(b[3..]);
      ThirdsStep(|b|);
    }
  }

  lemma RemovePaddingAppend(u: string, p: string)
    requires AllAlphabet(u) && p in {"", "=", "=="}
    requires (|u| + |p|) % 4 == 0
    requires p == "" ==> |u| % 4 == 0
    ensures RemovePadding(u + p) == u
  {
    var s := u + p;
    if p == "==" {
      assert s[|s| - 2..] == "==" && s[..|s| - 2] == u;
    } else if p == "=" {
      assert |u| > 0 && s[|s| - 2] == u[|u| - 1];
      assert s[..|s| - 1] == u;
    } else {
      assert |s| > 0 ==> s[|s| - 1] == u[|u| - 1] && s[|s| - 1] != '=';
    }
  }

  lemma UnpadEncode(b: seq<byte>)
    ensures RemovePadding(Encode(b)) == EncodeUnpadded(b)
  {
    var u := EncodeUnpadded(b);
    var p := Padding(|b|);
    UnpaddedLength(b);
    LengthArithmetic(|b|, |u|);
    assert p in {"", "=", "=="};
    assert p == "" ==> |u| == 4 * (|b| / 3);
    RemovePaddingAppend(u, p);
  }

  lemma StripEncode(b: seq<byte>)
    ensures RemovePadding(RemoveWhitespace(Encode(b))) == EncodeUnpadded(b)
  {
    RemoveWhitespaceOfClean(Encode(b));
    UnpadEncode(b);
  }

  /** What atob(btoa(x)) relies on: decoding an encoding gives the bytes back. */
  lemma DecodeEncode(b: seq<byte>)
    ensures Decode(Encode(b)) == Some(b)
  {
    StripEncode(b);
    DecodeEncodeUnpadded(b);
  }
}

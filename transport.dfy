/**
 * The audio transport codec of App.tsx (lines 18-30): `encode` turns bytes
 * into a Latin-1 string, one character per byte, and hands it to btoa;
 * `decode` runs atob and copies the character codes into a fresh
 * Uint8Array. JavaScript strings are modelled as Dafny strings whose
 * characters stand for UTF-16 code units.
 */
module Transport {
  import opened Wrappers
  import opened Base64

  /** `String.fromCharCode(b)` for every byte, in order. */
  function Latin1(b: seq<byte>): (s: string)
    ensures |s| == |b|
    ensures forall k :: 0 <= k < |b| ==> s[k] as int == b[k] as int
  {
    if b == [] then [] else [b[0] as int as char] + Latin1(b[1..])
  }

  /** The byte values of a string all of whose code units are below 256. */
  function Codes(s: string): (b: seq<byte>)
    requires forall k :: 0 <= k < |s| ==> s[k] as int < 256
    ensures |b| == |s|
    ensures forall k :: 0 <= k < |s| ==> b[k] as int == s[k] as int
  {
    if s == [] then [] else [s[0] as int as byte] + Codes(s[1..])
  }

  /** btoa: throws (None) on a code unit above 255, otherwise Base64 of
    * the string read as Latin-1 bytes. */
  function Btoa(s: string): (r: Option<string>)
    ensures r.Some? <==> forall k :: 0 <= k < |s| ==> s[k] as int < 256
    ensures r.Some? ==> r.value == Base64.Encode(Codes(s))
  {
    if forall k :: 0 <= k < |s| ==> s[k] as int < 256 then Some(Base64.Encode(Codes(s))) else None
  }

  /** atob: forgiving-base64 decode, the bytes returned as a Latin-1 string;
    * None when atob throws. */
  function Atob(s: string): (r: Option<string>)
    ensures r.Some? <==> Base64.Decode(s).Some?
    ensures r.Some? ==> r.value == Latin1(Base64.Decode(s).value)
  {
    match Base64.Decode(s)
    case Some(b) => Some(Latin1(b))
    case None => None
  }

  lemma CodesLatin1(b: seq<byte>)
    ensures Codes(Latin1(b)) == b
  {
  }

  /** App.tsx `encode`: never throws, and yields the Base64 text of the bytes. */
  method Encode(bytes: array<byte>) returns (text: string)
    ensures text == Base64.Encode(bytes[..])
  {
    var binary := "";
    var i := 0;
    while i < bytes.Length
      invariant 0 <= i <= bytes.Length
      invariant binary == Latin1(bytes[..i])
    {
      assert bytes[..i + 1] == bytes[..i] + [bytes[i]];
      binary := binary + [bytes[i] as int as char];
      i := i + 1;
    }
    assert bytes[..i] == bytes[..];
    var encoded := Btoa(binary);
    CodesLatin1(bytes[..]);
    text := encoded.value;
  }

  /** App.tsx `decode`: throws (None) exactly when atob does; otherwise a
    * fresh byte array holding the decoded bytes. */
  method Decode(text: string) returns (r: Option<array<byte>>)
    ensures r.Some? <==> Base64.Decode(text).Some?
    ensures r.Some? ==> r.value[..] == Base64.Decode(text).value
  {
    var binaryString := Atob(text);
    if binaryString.None? {
      return None;
    }
    var s := binaryString.value;
    ghost var decoded := Base64.Decode(text).value;
    assert s == Latin1(decoded);
    var bytes := new byte[|s|];
    var i := 0;
    while i < |s|
      invariant 0 <= i <= |s|
      invariant forall k :: 0 <= k < i ==> bytes[k] == decoded[k]
    {
      assert s[i] as int == decoded[i] as int;
      // a Uint8Array store keeps the low 8 bits of the code unit
      bytes[i] := (s[i] as int % 256) as byte;
      i := i + 1;
    }
    assert bytes[..] == decoded;
    r := Some(bytes);
  }

  /** What the audio stream relies on: `decode(encode(bytes))` gives the same
    * bytes back, for every byte sequence. */
  lemma DecodeEncode(b: seq<byte>)
    ensures Atob(Base64.Encode(b)) == Some(Latin1(b))
    ensures Base64.Decode(Base64.Encode(b)) == Some(b)
  {
    Base64.DecodeEncode(b);
  }
}

/**
 * The front half of `scan_one_file` (lus4n/graph.py) and the file checks of the
 * scan drivers: byte-order-mark removal, the binary/encrypted-content test on
 * the first 1024 bytes, and decoding through the ordered encoding list
 * utf-8, gb2312, gbk, latin-1.
 */
module Ingest {
  import opened Wrappers
  import opened Text

  type Byte = b: int | 0 <= b < 256

  /** What reading a file gives: its bytes, or the exception `open`/`read` raised. */
  datatype ReadResult = Content(bytes: seq<Byte>) | PermissionFailure | ReadFailure(reason: string)

  /** The UTF-8 byte-order mark (RFC 3629, section 6). */
  const BOM: seq<Byte> := [0xEF, 0xBB, 0xBF]

  /** How many leading bytes the binary test looks at. */
  const SCAN_WINDOW: nat := 1024

  /** ESC 'L': the start of a precompiled Lua chunk. */
  const BYTECODE_SIGNATURE: seq<Byte> := [0x1B, 0x4C]

  /** The bytes of "#!/usr/bin/lua". */
  const SHEBANG: seq<Byte> := [35, 33, 47, 117, 115, 114, 47, 98, 105, 110, 47, 108, 117, 97]

  /** One leading byte-order mark is dropped. */
  function StripBom(raw: seq<Byte>): (data: seq<Byte>)
    ensures StartsWith(raw, BOM) ==> data == raw[3..]
    ensures !StartsWith(raw, BOM) ==> data == raw
  {
    if StartsWith(raw, BOM) then raw[3..] else raw
  }

  /** A control byte other than tab, newline and carriage return, or a byte of 127 and above. */
  predicate Suspicious(b: Byte) {
    (b < 32 && b != 9 && b != 10 && b != 13) || b >= 127
  }

  /** Some byte among the first 1024 is suspicious. */
  predicate LooksBinary(data: seq<Byte>) {
    exists i :: 0 <= i < |data| && i < SCAN_WINDOW && Suspicious(data[i])
  }

  /**
   * The binary test as the source runs it: a flag set by a scan of the first
   * 1024 bytes that stops at the first suspicious byte, or'ed with a search
   * for a NUL byte in the same window.
   */
  method IsBinary(data: seq<Byte>) returns (binary: bool)
    ensures binary <==> LooksBinary(data)
  {
    var window := if |data| < SCAN_WINDOW then data else data[..SCAN_WINDOW];
    var flag := false;
    var i := 0;
    while i < |window|
      invariant 0 <= i <= |window|
      invariant !flag
      invariant forall k :: 0 <= k < i ==> !Suspicious(window[k])
    {
      if Suspicious(window[i]) {
        flag := true;
        break;
      }
      i := i + 1;
    }
    binary := 0 in window || flag;
  }

  /** A precompiled chunk is always caught by the binary test, since ESC is a control byte. */
  lemma BytecodeLooksBinary(data: seq<Byte>)
    requires StartsWith(data, BYTECODE_SIGNATURE)
    ensures LooksBinary(data)
  {
    assert Suspicious(data[0]);
  }

  /** A file that starts with the shebang line is not caught by the binary test on account of its first 14 bytes. */
  lemma ShebangIsText(data: seq<Byte>)
    requires StartsWith(data, SHEBANG)
    ensures forall i :: 0 <= i < |SHEBANG| ==> !Suspicious(data[i])
  {
    assert data[..|SHEBANG|] == SHEBANG;
    forall i | 0 <= i < |SHEBANG| ensures !Suspicious(data[i]) {
      assert data[i] == SHEBANG[i];
    }
  }

  // ---------------------------------------------------------------------------
  // Decoding

  datatype Encoding = Utf8 | Gb2312 | Gbk | Latin1

  /** The encodings `scan_one_file` tries, in order. */
  const ENCODINGS: seq<Encoding> := [Utf8, Gb2312, Gbk, Latin1]

  /** The two regional codecs are foreign; each is a partial decoder. */
  datatype Codecs = Codecs(gb2312: seq<Byte> -> Option<string>, gbk: seq<Byte> -> Option<string>)

  predicate IsContinuation(b: Byte) {
    0x80 <= b <= 0xBF
  }

  /**
   * Decodes the scalar value at the start of `b` under the strict UTF-8 rules
   * of RFC 3629 (no overlong forms, no surrogates, nothing above U+10FFFF),
   * giving the character and the number of bytes it used.
   */
  function DecodeScalar(b: seq<Byte>): (r: Option<(char, nat)>)
    requires |b| > 0
    ensures r.Some? ==> 1 <= r.value.1 <= |b| && r.value.1 <= 4
    ensures r.Some? && r.value.1 == 1 <==> b[0] < 0x80
  {
    var b0: int := b[0];
    if b0 < 0x80 then Some((b0 as char, 1))
    else if 0xC2 <= b0 <= 0xDF then
      if |b| >= 2 && IsContinuation(b[1]) then
        var cp: int := (b0 - 0xC0) * 64 + (b[1] as int - 0x80);
        assert 0x80 <= cp <= 0x7FF;
        Some((cp as char, 2))
      else None
    else if 0xE0 <= b0 <= 0xEF then
      var lo := if b0 == 0xE0 then 0xA0 else 0x80;
      var hi := if b0 == 0xED then 0x9F else 0xBF;
      if |b| >= 3 && lo <= b[1] <= hi && IsContinuation(b[2]) then
        var cp: int := (b0 - 0xE0) * 4096 + (b[1] as int - 0x80) * 64 + (b[2] as int - 0x80);
        assert b0 == 0xED ==> cp <= 0xD7FF;
        assert b0 != 0xED ==> cp < 0xD800 || 0xE000 <= cp;
        assert 0x800 <= cp <= 0xFFFF;
        Some((cp as char, 3))
      else None
    else if 0xF0 <= b0 <= 0xF4 then
      var lo := if b0 == 0xF0 then 0x90 else 0x80;
      var hi := if b0 == 0xF4 then 0x8F else 0xBF;
      if |b| >= 4 && lo <= b[1] <= hi && IsContinuation(b[2]) && IsContinuation(b[3]) then
        var cp: int := (b0 - 0xF0) * 262144 + (b[1] as int - 0x80) * 4096 + (b[2] as int - 0x80) * 64 + (b[3] as int - 0x80);
        assert 0x10000 <= cp <= 0x10FFFF;
        Some((cp as char, 4))
      else None
    else None
  }

  /** `bytes.decode('utf-8')`: None when the bytes are not well-formed UTF-8. */
  function DecodeUtf8(b: seq<Byte>): Option<string>
    decreases |b|
  {
    if |b| == 0 then Some("")
    else match DecodeScalar(b)
      case None => None
      case Some((c, n)) =>
        match DecodeUtf8(b[n..])
        case None => None
        case Some(rest) => Some([c] + rest)
  }

  /** `bytes.decode('latin-1')`: every byte is the character of the same number. */
  function DecodeLatin1(b: seq<Byte>): (s: string)
    ensures |s| == |b|
    ensures forall i :: 0 <= i < |b| ==> s[i] as int == b[i]
  {
    seq(|b|, i requires 0 <= i < |b| => b[i] as char)
  }

  function DecodeWith(codecs: Codecs, e: Encoding, b: seq<Byte>): Option<string> {
    match e
    case Utf8 => DecodeUtf8(b)
    case Gb2312 => codecs.gb2312(b)
    case Gbk => codecs.gbk(b)
    case Latin1 => Some(DecodeLatin1(b))
  }

  /** The decoding by the first encoding of `encodings` that accepts the bytes. */
  function FirstDecoding(codecs: Codecs, encodings: seq<Encoding>, b: seq<Byte>): Option<string> {
    if |encodings| == 0 then None
    else match DecodeWith(codecs, encodings[0], b)
      case Some(s) => Some(s)
      case None => FirstDecoding(codecs, encodings[1..], b)
  }

  /** latin-1 closes the list, so some encoding always accepts and the source's fallback is never taken. */
  lemma {:induction false} FirstDecodingTotal(codecs: Codecs, encodings: seq<Encoding>, b: seq<Byte>)
    requires Latin1 in encodings
    ensures FirstDecoding(codecs, encodings, b).Some?
  {
    if encodings[0] != Latin1 && DecodeWith(codecs, encodings[0], b).None? {
      assert Latin1 in encodings[1..];
      FirstDecodingTotal(codecs, encodings[1..], b);
    }
  }

  /** The text `scan_one_file` hands to the parser. */
  function Decoded(codecs: Codecs, b: seq<Byte>): string {
    match FirstDecoding(codecs, ENCODINGS, b)
    case Some(s) => s
    case None => DecodeLatin1(b)
  }

  /**
   * The decoding loop: try each encoding in turn and stop at the first that
   * succeeds; if none did, fall back to latin-1.
   */
  method Decode(codecs: Codecs, b: seq<Byte>) returns (source: string)
    ensures source == Decoded(codecs, b)
  {
    var result: Option<string> := None;
    var i := 0;
    while i < |ENCODINGS|
      invariant 0 <= i <= |ENCODINGS|
      invariant result.None? ==> FirstDecoding(codecs, ENCODINGS, b) == FirstDecoding(codecs, ENCODINGS[i..], b)
      invariant result.Some? ==> FirstDecoding(codecs, ENCODINGS, b) == result
    {
      var attempt := DecodeWith(codecs, ENCODINGS[i], b);
      if attempt.Some? {
        result := attempt;
        break;
      }
      i := i + 1;
    }
    if result.None? {
      source := DecodeLatin1(b);
    } else {
      source := result.value;
    }
  }

  /** Bytes that are all ASCII decode as UTF-8, one character per byte. */
  lemma {:induction false} AsciiIsUtf8(b: seq<Byte>)
    requires forall i :: 0 <= i < |b| ==> b[i] < 0x80
    ensures DecodeUtf8(b) == Some(DecodeLatin1(b))
    decreases |b|
  {
    if |b| > 0 {
      AsciiIsUtf8(b[1..]);
      assert DecodeLatin1(b) == [b[0] as char] + DecodeLatin1(b[1..]);
    }
  }

  /** So a file that passes the binary test and is no longer than the window is read as its own bytes. */
  lemma TextFileDecodesAsItself(codecs: Codecs, b: seq<Byte>)
    requires !LooksBinary(b) && |b| <= SCAN_WINDOW
    ensures Decoded(codecs, b) == DecodeLatin1(b)
  {
    forall i | 0 <= i < |b| ensures b[i] < 0x80 {
      assert !Suspicious(b[i]);
    }
    AsciiIsUtf8(b);
  }
}

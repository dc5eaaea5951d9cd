/**
 * Keys of the backend's texture cache (src/core/backends/rust_sdl2/texture_key.rs).
 * A key is a byte string whose first byte names the kind of resource:
 * 0x00 a texture loaded from a file, 0x01 rendered text, 0x02 rendered
 * wrapping text and 0xFF the debug texture. Text and paths enter the model as
 * their bytes (`str::as_bytes`, `OsStr::as_bytes`).
 */
module TextureKeys {
  import opened Ints
  import opened Wrappers

  datatype TextureKey = TextureKey(data: seq<Byte>)

  /** The resource a key is made from. */
  datatype KeySource =
    | DebugTexture
    | FromPath(path: seq<Byte>)
    | RenderedText(text: seq<Byte>, pointSize: U16)
    | RenderedWrappedText(text: seq<Byte>, pointSize: U16, wrapWidth: U32)

  const PATH_TAG: Byte := 0x00
  const TEXT_TAG: Byte := 0x01
  const WRAPPED_TEXT_TAG: Byte := 0x02
  const DEBUG_TAG: Byte := 0xFF

  /** `u16::to_le_bytes` */
  function LeU16(n: U16): (r: seq<Byte>)
    ensures |r| == 2 && r[0] as int + 0x100 * r[1] as int == n
  {
    [n % 0x100, n / 0x100]
  }

  /** `u32::to_le_bytes` */
  function LeU32(n: U32): (r: seq<Byte>)
    ensures |r| == 4 && r[0] as int + 0x100 * r[1] as int + 0x1_0000 * r[2] as int + 0x100_0000 * r[3] as int == n
  {
    var n1 := n / 0x100;
    var n2 := n1 / 0x100;
    [n % 0x100, n1 % 0x100, n2 % 0x100, n2 / 0x100]
  }

  /** Splitting off the low byte of a number: the division facts the little-endian lemmas need. */
  lemma SplitLowByte(n: int, lo: int, hi: int)
    requires 0 <= lo < 0x100 && n == lo + 0x100 * hi
    ensures n % 0x100 == lo && n / 0x100 == hi
  {
  }

  /** `u16::from_le_bytes` */
  function FromLeU16(b: seq<Byte>): (n: U16)
    requires |b| == 2
    ensures LeU16(n) == b
  {
    SplitLowByte(b[0] as int + 0x100 * b[1] as int, b[0] as int, b[1] as int);
    b[0] as int + 0x100 * b[1] as int
  }

  /** `u32::from_le_bytes` */
  function FromLeU32(b: seq<Byte>): (n: U32)
    requires |b| == 4
    ensures LeU32(n) == b
  {
    var n2 := b[2] as int + 0x100 * b[3] as int;
    var n1 := b[1] as int + 0x100 * n2;
    var n0 := b[0] as int + 0x100 * n1;
    SplitLowByte(n0, b[0] as int, n1);
    SplitLowByte(n1, b[1] as int, n2);
    SplitLowByte(n2, b[2] as int, b[3] as int);
    n0
  }

  /** The byte layout the type's documentation describes, one line per variant. */
  function Encode(s: KeySource): seq<Byte>
  {
    match s
    case DebugTexture => [DEBUG_TAG]
    case FromPath(p) => [PATH_TAG] + p
    case RenderedText(t, ps) => [TEXT_TAG] + LeU16(ps) + t
    case RenderedWrappedText(t, ps, w) => [WRAPPED_TEXT_TAG] + LeU16(ps) + LeU32(w) + t
  }

  /** Reads a key back: the inverse of Encode on the keys it produces. */
  function Decode(data: seq<Byte>): Option<KeySource>
  {
    if |data| == 0 then None
    else if data[0] == PATH_TAG then Some(FromPath(data[1..]))
    else if data[0] == TEXT_TAG then
      if |data| < 3 then None else Some(RenderedText(data[3..], FromLeU16(data[1..3])))
    else if data[0] == WRAPPED_TEXT_TAG then
      if |data| < 7 then None
      else Some(RenderedWrappedText(data[7..], FromLeU16(data[1..3]), FromLeU32(data[3..7])))
    else if data[0] == DEBUG_TAG && |data| == 1 then Some(DebugTexture)
    else None
  }

  /** Every key can be read back: no information is lost by the encoding. */
  lemma DecodeEncode(s: KeySource)
    ensures Decode(Encode(s)) == Some(s)
  {
    var d := Encode(s);
    match s
    case DebugTexture =>
    case FromPath(p) =>
      assert d[1..] == p;
    case RenderedText(t, ps) =>
      assert d[1..3] == LeU16(ps) && d[3..] == t;
      assert FromLeU16(LeU16(ps)) == ps;
    case RenderedWrappedText(t, ps, w) =>
      assert d[1..3] == LeU16(ps) && d[3..7] == LeU32(w) && d[7..] == t;
      assert FromLeU16(LeU16(ps)) == ps;
      assert FromLeU32(LeU32(w)) == w;
  }

  /** Whatever reads back as a resource is exactly that resource's key. */
  lemma EncodeDecode(data: seq<Byte>, s: KeySource)
    requires Decode(data) == Some(s)
    ensures Encode(s) == data
  {
    if data[0] == PATH_TAG {
      assert data == [data[0]] + data[1..];
    } else if data[0] == TEXT_TAG {
      assert data == [data[0]] + data[1..3] + data[3..];
    } else if data[0] == WRAPPED_TEXT_TAG {
      assert data == [data[0]] + data[1..3] + data[3..7] + data[7..];
    }
  }

  /** Two different resources never share a cache key. */
  lemma EncodeInjective(a: KeySource, b: KeySource)
    ensures Encode(a) == Encode(b) <==> a == b
  {
    if Encode(a) == Encode(b) {
      DecodeEncode(a);
      DecodeEncode(b);
    }
  }

  /** The first byte of a key names its kind. */
  lemma TagOfKey(s: KeySource)
    ensures |Encode(s)| >= 1
    ensures Encode(s)[0] == match s
      case DebugTexture => DEBUG_TAG
      case FromPath(_) => PATH_TAG
      case RenderedText(_, _) => TEXT_TAG
      case RenderedWrappedText(_, _, _) => WRAPPED_TEXT_TAG
  {
  }

  /** `debug_key` */
  method DebugKey() returns (k: TextureKey)
    ensures k.data == Encode(DebugTexture)
  {
    k := TextureKey([0xFF]);
  }

  /** Copies `bytes` into `data` starting at `start`, one byte at a time. */
  method CopyBytes(data: array<Byte>, start: nat, bytes: seq<Byte>) returns (index: nat)
    requires start + |bytes| <= data.Length
    modifies data
    ensures index == start + |bytes|
    ensures data[..start] == old(data[..start]) && data[start..index] == bytes
  {
    index := start;
    var j := 0;
    while j < |bytes|
      invariant 0 <= j <= |bytes| && index == start + j
      invariant data[..start] == old(data[..start]) && data[start..index] == bytes[..j]
    {
      data[index] := bytes[j];
      index := index + 1;
      j := j + 1;
    }
  }

  /** `from_path` */
  method FromPathKey(path: seq<Byte>) returns (k: TextureKey)
    ensures k.data == Encode(FromPath(path))
  {
    var data := new Byte[1 + |path|];
    data[0] := PATH_TAG;
    var index := 1;
    index := CopyBytes(data, index, path);
    assert data[..] == data[..1] + data[1..index];
    k := TextureKey(data[..]);
  }

  /** `from_rendered_text` */
  method FromRenderedText(text: seq<Byte>, pointSize: U16) returns (k: TextureKey)
    ensures k.data == Encode(RenderedText(text, pointSize))
  {
    var pointSizeBytes := LeU16(pointSize);
    var data := new Byte[1 + 2 + |text|];
    var index := 0;
    data[index] := TEXT_TAG;
    index := index + 1;
    data[index] := pointSizeBytes[0];
    index := index + 1;
    data[index] := pointSizeBytes[1];
    index := index + 1;
    ghost var header := data[..index];
    assert header == [TEXT_TAG] + pointSizeBytes;
    index := CopyBytes(data, index, text);
    assert data[..] == data[..3] + data[3..index];
    k := TextureKey(data[..]);
  }

  /** `from_rendered_wrapped_text` */
  method FromRenderedWrappedText(text: seq<Byte>, pointSize: U16, wrapWidth: U32) returns (k: TextureKey)
    ensures k.data == Encode(RenderedWrappedText(text, pointSize, wrapWidth))
  {
    var pointSizeBytes := LeU16(pointSize);
    var wrapWidthBytes := LeU32(wrapWidth);
    var data := new Byte[1 + 2 + 4 + |text|];
    var index := 0;
    data[index] := WRAPPED_TEXT_TAG;
    index := index + 1;
    data[index] := pointSizeBytes[0];
    index := index + 1;
    data[index] := pointSizeBytes[1];
    index := index + 1;
    data[index] := wrapWidthBytes[0];
    index := index + 1;
    data[index] := wrapWidthBytes[1];
    index := index + 1;
    data[index] := wrapWidthBytes[2];
    index := index + 1;
    data[index] := wrapWidthBytes[3];
    index := index + 1;
    ghost var header := data[..index];
    assert header == [WRAPPED_TEXT_TAG] + pointSizeBytes + wrapWidthBytes;
    index := CopyBytes(data, index, text);
    assert data[..] == data[..7] + data[7..index];
    k := TextureKey(data[..]);
  }

  /** The bytes of "text". */
  const TEXT_BYTES: seq<Byte> := [0x74, 0x65, 0x78, 0x74]

  /** The module's unit tests as facts about the encoding: 16 pt is 0x10 0x00 and u32::MAX - 1 is FE FF FF FF. */
  lemma EncodingExamples()
    ensures Encode(RenderedText(TEXT_BYTES, 16)) == [0x01, 0x10, 0x00, 0x74, 0x65, 0x78, 0x74]
    ensures Encode(RenderedWrappedText(TEXT_BYTES, 16, U32_MAX - 1))
         == [0x02, 0x10, 0x00, 0xFE, 0xFF, 0xFF, 0xFF, 0x74, 0x65, 0x78, 0x74]
    ensures Encode(FromPath([0x74, 0x65, 0x73, 0x74, 0x65, 0x72, 0x2F, 0x61, 0x62, 0x63]))
         == [0x00, 0x74, 0x65, 0x73, 0x74, 0x65, 0x72, 0x2F, 0x61, 0x62, 0x63]
  {
  }
}

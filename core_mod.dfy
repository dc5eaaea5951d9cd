/**
 * Argument conversions of the newer API (src/core/mod.rs): path-like and
 * byte-like arguments turned into owned values, and the non-empty string
 * check. Paths are modelled as strings on a Unix system, separator '/'.
 */
module CoreApi {
  import opened Ints
  import opened Wrappers

  /** A borrowed path, an owned path, or path components to be joined. */
  datatype PathLike = Path(path: string) | Buf(buf: string) | Parts(parts: seq<string>)

  /** `From<PathBuf> for PathLike` */
  function PathLikeFromBuf(p: string): (r: PathLike)
    ensures r.Buf? && r.buf == p
  {
    Buf(p)
  }

  /** `From<&Path> for PathLike` (and `From<&PathBuf>`) */
  function PathLikeFromPath(p: string): (r: PathLike)
    ensures r.Path? && r.path == p
  {
    Path(p)
  }

  /** `From<&[&str]> for PathLike` */
  function PathLikeFromParts(parts: seq<string>): (r: PathLike)
    ensures r.Parts? && r.parts == parts
  {
    Parts(parts)
  }

  /**
   * `PathBuf::push` on Unix: an absolute component replaces the path,
   * otherwise a separator is added unless the path is empty or already ends
   * with one.
   */
  function Push(buf: string, part: string): string
  {
    if |part| > 0 && part[0] == '/' then part
    else if |buf| > 0 && buf[|buf| - 1] != '/' then buf + "/" + part
    else buf + part
  }

  /** Collecting components into a `PathBuf`: push them in order onto an empty path. */
  function Collect(parts: seq<string>): string
  {
    if |parts| == 0 then "" else Push(Collect(parts[..|parts| - 1]), parts[|parts| - 1])
  }

  /** `From<PathLike> for PathBuf` */
  function PathBufFrom(ps: PathLike): string
  {
    match ps
    case Path(p) => p
    case Buf(b) => b
    case Parts(parts) => Collect(parts)
  }

  /**
   * `PathLike::get_path`: the path the argument denotes, and the new value of
   * the caller's `maybe_buf` slot, which holds any path that had to be owned.
   */
  function GetPath(ps: PathLike, maybeBuf: Option<string>): (r: (string, Option<string>))
    ensures r.0 == PathBufFrom(ps)
    ensures ps.Path? ==> r.1 == maybeBuf
    ensures !ps.Path? ==> r.1 == Some(r.0)
  {
    match ps
    case Path(p) => (p, maybeBuf)
    case Buf(b) => (b, Some(b))
    case Parts(parts) =>
      var buf := Collect(parts);
      (buf, Some(buf))
  }

  /** An owned or borrowed path converts back to itself; components are joined. */
  lemma PathBufFromPathLike(p: string, parts: seq<string>)
    ensures PathBufFrom(PathLikeFromBuf(p)) == p
    ensures PathBufFrom(PathLikeFromPath(p)) == p
    ensures PathBufFrom(PathLikeFromParts(parts)) == Collect(parts)
  {
  }

  /** Relative components without separators are joined with one '/' between each pair. */
  lemma {:induction false} CollectRelativeParts(parts: seq<string>)
    requires forall i :: 0 <= i < |parts| ==> |parts[i]| > 0 && '/' !in parts[i]
    ensures |parts| > 0 ==> Collect(parts) == Collect(parts[..|parts| - 1]) + (if |parts| > 1 then "/" else "") + parts[|parts| - 1]
    ensures |parts| > 0 ==> |Collect(parts)| > 0 && Collect(parts)[|Collect(parts)| - 1] != '/'
  {
    if |parts| > 1 {
      var init := parts[..|parts| - 1];
      CollectRelativeParts(init);
      assert init[..|init| - 1] == parts[..|parts| - 2];
    } else if |parts| == 1 {
      assert parts[|parts| - 1] == parts[0];
      assert parts[0][|parts[0]| - 1] in parts[0];
    }
  }

  /** The path the texture key test builds from the components "tester" and "abc". */
  lemma CollectExample()
    ensures Collect(["tester", "abc"]) == "tester/abc"
  {
    assert ["tester", "abc"][..1] == ["tester"];
    assert ["tester"][..0] == [];
  }

  /** Bytes that are either borrowed or owned. */
  datatype BytesLike = Slice(slice: seq<Byte>) | Vec(vec: seq<Byte>)

  /** `From<Vec<u8>> for BytesLike`: takes ownership. */
  function BytesLikeFromVec(v: seq<Byte>): (r: BytesLike)
    ensures r.Vec? && r.vec == v
  {
    Vec(v)
  }

  /** `From<&[u8]> for BytesLike` (and `From<&Vec<u8>>`): borrows. */
  function BytesLikeFromSlice(s: seq<Byte>): (r: BytesLike)
    ensures r.Slice? && r.slice == s
  {
    Slice(s)
  }

  /** `From<BytesLike> for Vec<u8>`: a borrowed slice is copied, an owned vector moved. */
  function VecFrom(b: BytesLike): seq<Byte>
  {
    match b
    case Slice(s) => s
    case Vec(v) => v
  }

  /** Converting bytes into a BytesLike and back to a vector gives the same bytes, borrowed or owned. */
  lemma VecFromBytesLike(v: seq<Byte>)
    ensures VecFrom(BytesLikeFromVec(v)) == v
    ensures VecFrom(BytesLikeFromSlice(v)) == v
  {
  }

  datatype NonEmptyStr = NonEmptyStr(s: string)

  /** `TryInto<NonEmptyStr> for &str`: fails with `()` exactly on the empty string. */
  function TryIntoNonEmptyStr(s: string): (r: Result<NonEmptyStr, ()>)
    ensures r.Err? <==> |s| == 0
    ensures r.Ok? ==> r.value.s == s && |r.value.s| > 0
  {
    if |s| == 0 then Err(()) else Ok(NonEmptyStr(s))
  }
}

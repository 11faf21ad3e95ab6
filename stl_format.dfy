/** The two STL layouts the exporter writes: the binary one (an 80-byte header, a
    little-endian u32 triangle count, then one 50-byte record per face) and the ASCII
    one (a `solid` line, seven lines per face, an `endsolid` line). */
module StlFormat {

  import opened PyCore
  import opened Mesh

  // ---------------------------------------------------------------- words

  /** An octet. */
  newtype byte = x: int | 0 <= x < 256

  /** Four bytes, lowest first. */
  datatype Quad = Quad(b0: byte, b1: byte, b2: byte, b3: byte)

  function QuadBytes(q: Quad): (r: seq<byte>)
    ensures |r| == 4
  {
    [q.b0, q.b1, q.b2, q.b3]
  }

  /** `struct.pack('<f', x)`: the little-endian single-precision encoding of `x`, or
      `None` where Python raises OverflowError because `x` is out of float32 range. */
  type Packer = real -> Option<Quad>

  const HeaderSize: nat := 80
  const CountSize: nat := 4
  const RecordSize: nat := 50
  const U32Limit: nat := 0x1_0000_0000

  /** `struct.pack('<I', n)`. */
  function U32LE(n: nat): (r: seq<byte>)
    requires n < U32Limit
    ensures |r| == 4
  {
    [(n % 256) as byte, (n / 256 % 256) as byte, (n / 65536 % 256) as byte, (n / 16777216) as byte]
  }

  /** The value of a byte. */
  function ByteValue(x: byte): (n: nat)
    ensures n < 256
  {
    x as nat
  }

  /** `struct.unpack('<I', b)[0]`. */
  function ParseU32LE(b: seq<byte>): nat
    requires |b| == 4
  {
    ByteValue(b[0]) + 256 * (ByteValue(b[1]) + 256 * (ByteValue(b[2]) + 256 * ByteValue(b[3])))
  }

  /** Reading a packed count back gives the count. */
  lemma U32RoundTrip(n: nat)
    requires n < U32Limit
    ensures ParseU32LE(U32LE(n)) == n
  {
    var q1 := n / 256;
    var q2 := q1 / 256;
    var q3 := q2 / 256;
    assert n / 65536 == q2 && n / 16777216 == q3 by {
      DivByteTwice(n);
    }
  }

  /** Shifting right by 16 and by 24 bits is shifting right by 8 bits two and three times. */
  lemma DivByteTwice(n: nat)
    ensures n / 65536 == n / 256 / 256
    ensures n / 16777216 == n / 256 / 256 / 256
  {
    var q1 := n / 256;
    var q2 := q1 / 256;
    var q3 := q2 / 256;
    assert n == 65536 * q2 + (256 * (q1 % 256) + n % 256);
    assert n == 16777216 * q3 + (65536 * (q2 % 256) + 256 * (q1 % 256) + n % 256);
  }

  // ---------------------------------------------------------------- header

  /** The UTF-8 encoding of one character. */
  function Utf8Char(c: char): (r: seq<byte>)
    ensures 1 <= |r| <= 4
    ensures c != '\0' ==> forall j :: 0 <= j < |r| ==> r[j] != 0
    ensures c as int < 0x80 ==> r == [c as int as byte]
  {
    var n := c as int;
    if n < 0x80 then [n as byte]
    else if n < 0x800 then [Byte(0xC0 + n / 64), Continuation(n)]
    else if n < 0x10000 then [Byte(0xE0 + n / 4096), Continuation(n / 64), Continuation(n)]
    else [Byte(0xF0 + n / 262144), Continuation(n / 4096), Continuation(n / 64), Continuation(n)]
  }

  /** A byte of the given value. */
  function Byte(k: nat): (b: byte)
    requires 0 < k < 256
    ensures b != 0 && b as nat == k
  {
    k as byte
  }

  /** A UTF-8 continuation byte: `10` followed by the low six bits of `k`. */
  function Continuation(k: nat): (b: byte)
    ensures b != 0 && b as nat == 0x80 + k % 64
  {
    Byte(0x80 + k % 64)
  }

  /** `s.encode('utf-8')`. */
  function Utf8(s: string): (r: seq<byte>)
    ensures |r| >= |s|
    ensures (forall j :: 0 <= j < |s| ==> s[j] != '\0') ==> forall j :: 0 <= j < |r| ==> r[j] != 0
  {
    if s == [] then [] else Utf8(s[..|s| - 1]) + Utf8Char(s[|s| - 1])
  }

  /** An ASCII name encodes to one byte per character, each the character's code. */
  lemma {:induction false} Utf8Ascii(s: string)
    requires forall j :: 0 <= j < |s| ==> s[j] as int < 0x80
    ensures |Utf8(s)| == |s|
    ensures forall j :: 0 <= j < |s| ==> Utf8(s)[j] == s[j] as int as byte
  {
    if s != [] {
      Utf8Ascii(s[..|s| - 1]);
    }
  }

  /** `part_name.encode('utf-8')[:80].ljust(80, b'\0')`. */
  function Header(name: string): (h: seq<byte>)
    ensures |h| == HeaderSize
  {
    var bytes := Utf8(name);
    var kept := if |bytes| <= HeaderSize then bytes else bytes[..HeaderSize];
    kept + seq(HeaderSize - |kept|, _ => 0 as byte)
  }

  /** The header starts with the name's bytes, cut at 80, and is zero after them. */
  lemma HeaderLayout(name: string)
    ensures var bytes := Utf8(name);
      var k := if |bytes| <= HeaderSize then |bytes| else HeaderSize;
      Header(name)[..k] == bytes[..k] && forall j :: k <= j < HeaderSize ==> Header(name)[j] == 0
  {
  }

  /** The bytes of a header up to its first zero byte: how a reader recovers the name. */
  function HeaderName(h: seq<byte>): (r: seq<byte>)
    ensures r <= h
    ensures forall j :: 0 <= j < |r| ==> r[j] != 0
    ensures |r| < |h| ==> h[|r|] == 0
  {
    if h == [] || h[0] == 0 then [] else [h[0]] + HeaderName(h[1..])
  }

  /** A name without NUL characters that fits in 80 bytes is read back from the header unchanged. */
  lemma {:induction false} HeaderRoundTrip(name: string)
    requires forall j :: 0 <= j < |name| ==> name[j] != '\0'
    requires |Utf8(name)| <= HeaderSize
    ensures HeaderName(Header(name)) == Utf8(name)
  {
    var bytes := Utf8(name);
    var h := Header(name);
    assert h[..|bytes|] == bytes;
    HeaderNamePrefix(h, |bytes|);
  }

  lemma {:induction false} HeaderNamePrefix(h: seq<byte>, k: nat)
    requires k <= |h|
    requires forall j :: 0 <= j < k ==> h[j] != 0
    requires k < |h| ==> h[k] == 0
    ensures HeaderName(h) == h[..k]
  {
    if k > 0 {
      HeaderNamePrefix(h[1..], k - 1);
      assert h[..k] == [h[0]] + h[1..][..k - 1];
    }
  }

  // ---------------------------------------------------------------- records

  /** Packs every value in turn; the first that does not fit makes the whole write fail. */
  function PackAll(pack: Packer, xs: seq<real>): (r: Option<seq<byte>>)
    ensures r.Some? <==> forall i :: 0 <= i < |xs| ==> pack(xs[i]).Some?
    ensures r.Some? ==> |r.value| == 4 * |xs|
  {
    if xs == [] then Some([])
    else
      match PackAll(pack, xs[..|xs| - 1])
      case None => None
      case Some(b) =>
        match pack(xs[|xs| - 1])
        case None => None
        case Some(q) => Some(b + QuadBytes(q))
  }

  /** Value `i` lands at bytes `4i .. 4i+4`. */
  lemma {:induction false} PackAllAt(pack: Packer, xs: seq<real>, i: nat)
    requires PackAll(pack, xs).Some? && i < |xs|
    ensures PackAll(pack, xs).value[4 * i..4 * i + 4] == QuadBytes(pack(xs[i]).value)
  {
    var last := |xs| - 1;
    var b := PackAll(pack, xs[..last]).value;
    if i < last {
      PackAllAt(pack, xs[..last], i);
      assert xs[..last][i] == xs[i];
    }
  }

  /** The twelve numbers of a record: the normal, then the three corners in face order. */
  function RecordValues(normal: Vec3, v1: Vec3, v2: Vec3, v3: Vec3): seq<real> {
    [normal.x, normal.y, normal.z, v1.x, v1.y, v1.z, v2.x, v2.y, v2.z, v3.x, v3.y, v3.z]
  }

  /** One 50-byte record: twelve float32 values and a zero u16 attribute count. */
  function Record(pack: Packer, normal: Vec3, v1: Vec3, v2: Vec3, v3: Vec3): (r: Option<seq<byte>>)
    ensures r.Some? ==> |r.value| == RecordSize && r.value[48..] == [0, 0]
  {
    match PackAll(pack, RecordValues(normal, v1, v2, v3))
    case None => None
    case Some(b) => Some(b + [0, 0])
  }

  /** The record of face `f`, whose corners are looked up with Python indexing. */
  function FaceRecord(pack: Packer, vertices: seq<Vec3>, f: Face, normal: Vec3): Option<seq<byte>>
    requires FaceInPyRange(|vertices|, f)
  {
    Record(pack, normal, PyIndex(vertices, f.a), PyIndex(vertices, f.b), PyIndex(vertices, f.c))
  }

  /** The records of all faces, in face order. */
  function Records(pack: Packer, vertices: seq<Vec3>, faces: seq<Face>, normals: seq<Vec3>): (r: Option<seq<byte>>)
    requires AllInPyRange(|vertices|, faces) && |normals| == |faces|
    ensures r.Some? ==> |r.value| == RecordSize * |faces|
  {
    if faces == [] then Some([])
    else
      var i := |faces| - 1;
      match Records(pack, vertices, faces[..i], normals[..i])
      case None => None
      case Some(b) =>
        match FaceRecord(pack, vertices, faces[i], normals[i])
        case None => None
        case Some(rec) => Some(b + rec)
  }

  /** The record of face `i` sits at bytes `50i .. 50i+50`; and every face's record can be packed
      exactly when all of them can. */
  lemma {:induction false} RecordsAt(pack: Packer, vertices: seq<Vec3>, faces: seq<Face>, normals: seq<Vec3>, i: nat)
    requires AllInPyRange(|vertices|, faces) && |normals| == |faces|
    requires Records(pack, vertices, faces, normals).Some? && i < |faces|
    ensures FaceRecord(pack, vertices, faces[i], normals[i]).Some?
    ensures Records(pack, vertices, faces, normals).value[RecordSize * i..RecordSize * (i + 1)]
      == FaceRecord(pack, vertices, faces[i], normals[i]).value
  {
    var last := |faces| - 1;
    if i < last {
      RecordsAt(pack, vertices, faces[..last], normals[..last], i);
      assert faces[..last][i] == faces[i] && normals[..last][i] == normals[i];
    }
  }

  /** A failing record fails every longer list of records that contains it. */
  lemma {:induction false} RecordsFailFrom(pack: Packer, vertices: seq<Vec3>, faces: seq<Face>, normals: seq<Vec3>, k: nat)
    requires AllInPyRange(|vertices|, faces) && |normals| == |faces|
    requires k < |faces| && FaceRecord(pack, vertices, faces[k], normals[k]).None?
    ensures Records(pack, vertices, faces, normals).None?
  {
    if Records(pack, vertices, faces, normals).Some? {
      RecordsAt(pack, vertices, faces, normals, k);
    }
  }

  /** What the binary writer leaves behind: the bytes of a complete file, or the message of the
      `struct` error that stopped it. */
  datatype Written = Wrote(bytes: seq<byte>) | PackFailed(message: string)

  const CountErrorMessage: string := "'I' format requires 0 <= number <= 4294967295"
  const FloatErrorMessage: string := "float too large to pack with f format"

  /** The whole binary file: header, count, records. The count is packed before any record. */
  function BinaryStl(pack: Packer, name: string, vertices: seq<Vec3>, faces: seq<Face>, normals: seq<Vec3>): Written
    requires AllInPyRange(|vertices|, faces) && |normals| == |faces|
  {
    if |faces| >= U32Limit then PackFailed(CountErrorMessage)
    else
      match Records(pack, vertices, faces, normals)
      case None => PackFailed(FloatErrorMessage)
      case Some(records) => Wrote(Header(name) + U32LE(|faces|) + records)
  }

  /** The binary layout: 84 + 50n bytes, the header first, the count at bytes 80-83 (read back as
      n), and the record of face `i` at byte 84 + 50i. */
  lemma BinaryLayout(pack: Packer, name: string, vertices: seq<Vec3>, faces: seq<Face>, normals: seq<Vec3>)
    requires AllInPyRange(|vertices|, faces) && |normals| == |faces|
    requires BinaryStl(pack, name, vertices, faces, normals).Wrote?
    ensures var b := BinaryStl(pack, name, vertices, faces, normals).bytes;
      && |b| == HeaderSize + CountSize + RecordSize * |faces|
      && b[..HeaderSize] == Header(name)
      && ParseU32LE(b[HeaderSize..HeaderSize + CountSize]) == |faces|
      && forall i :: 0 <= i < |faces| ==>
           FaceRecord(pack, vertices, faces[i], normals[i]).Some?
           && b[HeaderSize + CountSize + RecordSize * i..HeaderSize + CountSize + RecordSize * (i + 1)]
              == FaceRecord(pack, vertices, faces[i], normals[i]).value
  {
    var b := BinaryStl(pack, name, vertices, faces, normals).bytes;
    var records := Records(pack, vertices, faces, normals).value;
    var front := Header(name) + U32LE(|faces|);
    assert b == front + records;
    FrontLayout(name, |faces|, records);
    forall i | 0 <= i < |faces|
      ensures FaceRecord(pack, vertices, faces[i], normals[i]).Some?
      ensures b[HeaderSize + CountSize + RecordSize * i..HeaderSize + CountSize + RecordSize * (i + 1)]
              == FaceRecord(pack, vertices, faces[i], normals[i]).value
    {
      RecordsAt(pack, vertices, faces, normals, i);
      SliceOfRightPart(front, records, RecordSize * i, RecordSize * (i + 1));
    }
  }

  /** The header and the count in front of the records. */
  lemma FrontLayout(name: string, n: nat, records: seq<byte>)
    requires n < U32Limit
    ensures var b := Header(name) + U32LE(n) + records;
      && |b| == HeaderSize + CountSize + |records|
      && b[..HeaderSize] == Header(name)
      && ParseU32LE(b[HeaderSize..HeaderSize + CountSize]) == n
  {
    var front := Header(name) + U32LE(n);
    SliceOfLeft(front, records, 0, HeaderSize);
    SliceOfLeft(Header(name), U32LE(n), 0, HeaderSize);
    SliceOfLeft(front, records, HeaderSize, HeaderSize + CountSize);
    SliceOfRight(Header(name), U32LE(n));
    U32RoundTrip(n);
  }

  /** The write fails exactly when there are 2^32 faces or more, or some value is out of float32 range. */
  lemma BinaryFailure(pack: Packer, name: string, vertices: seq<Vec3>, faces: seq<Face>, normals: seq<Vec3>)
    requires AllInPyRange(|vertices|, faces) && |normals| == |faces|
    ensures BinaryStl(pack, name, vertices, faces, normals).PackFailed? <==>
      (|faces| >= U32Limit || exists i :: 0 <= i < |faces| && FaceRecord(pack, vertices, faces[i], normals[i]).None?)
  {
    if |faces| < U32Limit && Records(pack, vertices, faces, normals).None? {
      var i := RecordsFailWitness(pack, vertices, faces, normals);
    }
    if exists i :: 0 <= i < |faces| && FaceRecord(pack, vertices, faces[i], normals[i]).None? {
      var i :| 0 <= i < |faces| && FaceRecord(pack, vertices, faces[i], normals[i]).None?;
      RecordsFailFrom(pack, vertices, faces, normals, i);
    }
  }

  lemma {:induction false} RecordsFailWitness(pack: Packer, vertices: seq<Vec3>, faces: seq<Face>, normals: seq<Vec3>) returns (i: nat)
    requires AllInPyRange(|vertices|, faces) && |normals| == |faces|
    requires Records(pack, vertices, faces, normals).None?
    ensures i < |faces| && FaceRecord(pack, vertices, faces[i], normals[i]).None?
  {
    var last := |faces| - 1;
    if Records(pack, vertices, faces[..last], normals[..last]).None? {
      i := RecordsFailWitness(pack, vertices, faces[..last], normals[..last]);
      assert faces[..last][i] == faces[i] && normals[..last][i] == normals[i];
    } else {
      i := last;
    }
  }

  /** The binary writer: the header, the count, then the records one face at a time. `file`
      is what has been written when it stops. */
  method WriteBinary(pack: Packer, name: string, vertices: seq<Vec3>, faces: seq<Face>, normals: seq<Vec3>)
    returns (w: Written, file: seq<byte>)
    requires AllInPyRange(|vertices|, faces) && |normals| == |faces|
    ensures w == BinaryStl(pack, name, vertices, faces, normals)
    ensures w.Wrote? ==> file == w.bytes
    ensures |file| >= HeaderSize && file[..HeaderSize] == Header(name)
  {
    file := Header(name);
    if |faces| >= U32Limit {
      return PackFailed(CountErrorMessage), file;
    }
    file := file + U32LE(|faces|);
    for i := 0 to |faces|
      invariant Records(pack, vertices, faces[..i], normals[..i]).Some?
      invariant file == Header(name) + U32LE(|faces|) + Records(pack, vertices, faces[..i], normals[..i]).value
    {
      var record := FaceRecord(pack, vertices, faces[i], normals[i]);
      if record.None? {
        RecordsFailFrom(pack, vertices, faces, normals, i);
        return PackFailed(FloatErrorMessage), file;
      }
      assert faces[..i + 1][..i] == faces[..i] && normals[..i + 1][..i] == normals[..i];
      file := file + record.value;
    }
    assert faces[..|faces|] == faces && normals[..|faces|] == normals;
    w := Wrote(file);
  }

  // ---------------------------------------------------------------- ASCII

  /** `f"{x:.6f}"`. */
  type Fixed6 = real -> string

  function Triple(fmt: Fixed6, v: Vec3): string {
    fmt(v.x) + " " + fmt(v.y) + " " + fmt(v.z)
  }

  /** The seven lines of one facet. */
  function FacetLines(fmt: Fixed6, normal: Vec3, v1: Vec3, v2: Vec3, v3: Vec3): (lines: seq<string>)
    ensures |lines| == 7
  {
    [ "  facet normal " + Triple(fmt, normal),
      "    outer loop",
      "      vertex " + Triple(fmt, v1),
      "      vertex " + Triple(fmt, v2),
      "      vertex " + Triple(fmt, v3),
      "    endloop",
      "  endfacet" ]
  }

  function FaceFacet(fmt: Fixed6, vertices: seq<Vec3>, f: Face, normal: Vec3): (lines: seq<string>)
    requires FaceInPyRange(|vertices|, f)
    ensures |lines| == 7
  {
    FacetLines(fmt, normal, PyIndex(vertices, f.a), PyIndex(vertices, f.b), PyIndex(vertices, f.c))
  }

  function Facets(fmt: Fixed6, vertices: seq<Vec3>, faces: seq<Face>, normals: seq<Vec3>): (lines: seq<string>)
    requires AllInPyRange(|vertices|, faces) && |normals| == |faces|
    ensures |lines| == 7 * |faces|
  {
    if faces == [] then []
    else
      var i := |faces| - 1;
      Facets(fmt, vertices, faces[..i], normals[..i]) + FaceFacet(fmt, vertices, faces[i], normals[i])
  }

  /** The lines of the ASCII file; each is written followed by a newline. */
  function AsciiStl(fmt: Fixed6, name: string, vertices: seq<Vec3>, faces: seq<Face>, normals: seq<Vec3>): seq<string>
    requires AllInPyRange(|vertices|, faces) && |normals| == |faces|
  {
    ["solid " + name] + Facets(fmt, vertices, faces, normals) + ["endsolid " + name]
  }

  lemma {:induction false} FacetsAt(fmt: Fixed6, vertices: seq<Vec3>, faces: seq<Face>, normals: seq<Vec3>, i: nat)
    requires AllInPyRange(|vertices|, faces) && |normals| == |faces| && i < |faces|
    ensures Facets(fmt, vertices, faces, normals)[7 * i..7 * i + 7] == FaceFacet(fmt, vertices, faces[i], normals[i])
  {
    var last := |faces| - 1;
    var prefix := Facets(fmt, vertices, faces[..last], normals[..last]);
    var final := FaceFacet(fmt, vertices, faces[last], normals[last]);
    assert Facets(fmt, vertices, faces, normals) == prefix + final;
    if i < last {
      FacetsAt(fmt, vertices, faces[..last], normals[..last], i);
      assert faces[..last][i] == faces[i] && normals[..last][i] == normals[i];
      SliceOfLeft(prefix, final, 7 * i, 7 * i + 7);
    } else {
      SliceOfRight(prefix, final);
    }
  }

  /** A slice that lies inside the left operand of a concatenation. */
  lemma SliceOfLeft<T>(a: seq<T>, b: seq<T>, lo: nat, hi: nat)
    requires lo <= hi <= |a|
    ensures (a + b)[lo..hi] == a[lo..hi]
  {
    assert forall k :: lo <= k < hi ==> (a + b)[k] == a[k];
  }

  /** A slice that lies inside the right operand of a concatenation. */
  lemma SliceOfRightPart<T>(a: seq<T>, b: seq<T>, lo: nat, hi: nat)
    requires lo <= hi <= |b|
    ensures (a + b)[|a| + lo..|a| + hi] == b[lo..hi]
  {
    assert forall k :: lo <= k < hi ==> (a + b)[|a| + k] == b[k];
  }

  /** The slice of a concatenation that covers its right operand. */
  lemma SliceOfRight<T>(a: seq<T>, b: seq<T>)
    ensures (a + b)[|a|..|a| + |b|] == b
  {
    assert forall k :: 0 <= k < |b| ==> (a + b)[|a| + k] == b[k];
  }

  /** The ASCII layout: 2 + 7n lines, `solid <name>` first, `endsolid <name>` last, and the facet of
      face `i`, with its corners in face order, at lines 1 + 7i .. 7 + 7i. */
  lemma AsciiLayout(fmt: Fixed6, name: string, vertices: seq<Vec3>, faces: seq<Face>, normals: seq<Vec3>)
    requires AllInPyRange(|vertices|, faces) && |normals| == |faces|
    ensures var lines := AsciiStl(fmt, name, vertices, faces, normals);
      && |lines| == 2 + 7 * |faces|
      && lines[0] == "solid " + name
      && lines[|lines| - 1] == "endsolid " + name
      && forall i :: 0 <= i < |faces| ==> lines[1 + 7 * i..8 + 7 * i] == FaceFacet(fmt, vertices, faces[i], normals[i])
  {
    var lines := AsciiStl(fmt, name, vertices, faces, normals);
    var body := Facets(fmt, vertices, faces, normals);
    forall i | 0 <= i < |faces|
      ensures lines[1 + 7 * i..8 + 7 * i] == FaceFacet(fmt, vertices, faces[i], normals[i])
    {
      FacetsAt(fmt, vertices, faces, normals, i);
      assert lines[1 + 7 * i..8 + 7 * i] == body[7 * i..7 * i + 7];
    }
  }

  /** The ASCII writer: the `solid` line, seven lines per face, the `endsolid` line. */
  method WriteAscii(fmt: Fixed6, name: string, vertices: seq<Vec3>, faces: seq<Face>, normals: seq<Vec3>)
    returns (lines: seq<string>)
    requires AllInPyRange(|vertices|, faces) && |normals| == |faces|
    ensures lines == AsciiStl(fmt, name, vertices, faces, normals)
  {
    lines := ["solid " + name];
    for i := 0 to |faces|
      invariant lines == ["solid " + name] + Facets(fmt, vertices, faces[..i], normals[..i])
    {
      assert faces[..i + 1][..i] == faces[..i] && normals[..i + 1][..i] == normals[..i];
      lines := lines + FaceFacet(fmt, vertices, faces[i], normals[i]);
    }
    assert faces[..|faces|] == faces && normals[..|faces|] == normals;
    lines := lines + ["endsolid " + name];
  }
}

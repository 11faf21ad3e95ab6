/** The triangle mesh shared by the generators and the STL exporter. */
module Mesh {

  /** A vertex or a vector; coordinates are exact reals. */
  datatype Vec3 = Vec3(x: real, y: real, z: real)

  /** A triangle as three vertex indices, in winding order. Indices are Python
      integers: a negative one counts from the end of the vertex list. */
  datatype Face = Face(a: int, b: int, c: int)

  function Sub(u: Vec3, v: Vec3): Vec3 {
    Vec3(u.x - v.x, u.y - v.y, u.z - v.z)
  }

  function Dot(u: Vec3, v: Vec3): real {
    u.x * v.x + u.y * v.y + u.z * v.z
  }

  function Cross(u: Vec3, v: Vec3): Vec3 {
    Vec3(u.y * v.z - u.z * v.y, u.z * v.x - u.x * v.z, u.x * v.y - u.y * v.x)
  }

  /** The cross product is orthogonal to both of its factors. */
  lemma CrossOrthogonal(u: Vec3, v: Vec3)
    ensures Dot(Cross(u, v), u) == 0.0 && Dot(Cross(u, v), v) == 0.0
  {
  }

  function Scale(v: Vec3, k: real): Vec3 {
    Vec3(v.x * k, v.y * k, v.z * k)
  }

  /** The squared Euclidean norm. */
  function NormSq(v: Vec3): real {
    v.x * v.x + v.y * v.y + v.z * v.z
  }

  /** Python's `seq[i]`: valid for `-|s| <= i < |s|`, negative indices count from the end. */
  predicate InPyRange(n: nat, i: int) {
    -(n as int) <= i < n
  }

  function PyIndex<T>(s: seq<T>, i: int): T
    requires InPyRange(|s|, i)
  {
    if i < 0 then s[|s| + i] else s[i]
  }

  predicate FaceInPyRange(n: nat, f: Face) {
    InPyRange(n, f.a) && InPyRange(n, f.b) && InPyRange(n, f.c)
  }

  /** Every face can be looked up in a vertex list of length `n` without raising. */
  predicate AllInPyRange(n: nat, faces: seq<Face>) {
    forall k :: 0 <= k < |faces| ==> FaceInPyRange(n, faces[k])
  }

  /** Every index is a genuine position `0 <= i < n` (what a well-formed mesh promises). */
  predicate IndicesIn(n: int, faces: seq<Face>) {
    forall k :: 0 <= k < |faces| ==>
      0 <= faces[k].a < n && 0 <= faces[k].b < n && 0 <= faces[k].c < n
  }

  lemma IndicesInAppend(n: int, f: seq<Face>, g: seq<Face>)
    requires IndicesIn(n, f) && IndicesIn(n, g)
    ensures IndicesIn(n, f + g)
  {
  }

  /** Appending the next element of `s` extends the prefix of `s` kept after `front` by one. */
  lemma PrefixStep<T>(front: seq<T>, s: seq<T>, k: nat)
    requires k < |s|
    ensures front + s[..k] + [s[k]] == front + s[..k + 1]
  {
    assert s[..k + 1] == s[..k] + [s[k]];
  }

  /** Two appends in a row append the pair. */
  lemma AppendTwo<T>(s: seq<T>, a: T, b: T)
    ensures s + [a] + [b] == s + [a, b]
  {
    assert [a] + [b] == [a, b];
  }

  /** The cross product of the two edge vectors `v2 - v1` and `v3 - v1`. */
  function FaceCross(vertices: seq<Vec3>, f: Face): Vec3
    requires FaceInPyRange(|vertices|, f)
  {
    var v1 := PyIndex(vertices, f.a);
    Cross(Sub(PyIndex(vertices, f.b), v1), Sub(PyIndex(vertices, f.c), v1))
  }

  /** The vertices and faces a generator returns. */
  datatype MeshData = MeshData(vertices: seq<Vec3>, faces: seq<Face>)
}

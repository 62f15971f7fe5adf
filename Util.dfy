/** Small value types shared by the modules of this model. */
module Util {

  /** A value that may be absent: the model's stand-in for a null pointer. */
  datatype Option<T> = None | Some(value: T)

  /** An axis-aligned rectangle (`ofRectangle`): top-left corner and size. */
  datatype Rect = Rect(x: real, y: real, width: real, height: real)

  /** A colour with 8-bit channels (`ofColor`). */
  datatype Color = Color(r: int, g: int, b: int, a: int)

  /** A point or vector of three coordinates (`ofPoint`, `ofVec3f`). */
  datatype Point = Point(x: real, y: real, z: real)

  const Origin := Point(0.0, 0.0, 0.0)

  function Add(p: Point, q: Point): Point { Point(p.x + q.x, p.y + q.y, p.z + q.z) }
  function Sub(p: Point, q: Point): Point { Point(p.x - q.x, p.y - q.y, p.z - q.z) }
  function Scale(p: Point, f: real): Point { Point(p.x * f, p.y * f, p.z * f) }
  function Dot(p: Point, q: Point): real { p.x * q.x + p.y * q.y + p.z * q.z }

  /** The sum of a sequence of integers, added from the front. */
  function Sum(s: seq<int>): int
  {
    if s == [] then 0 else s[0] + Sum(s[1..])
  }

  /** Summing a prefix one element longer adds that element at the end. */
  lemma {:induction false} SumSnoc(s: seq<int>, k: nat)
    requires k < |s|
    ensures Sum(s[..k + 1]) == Sum(s[..k]) + s[k]
  {
    if k > 0 {
      assert s[..k + 1][1..] == s[1..][..k];
      assert s[..k][1..] == s[1..][..k - 1];
      SumSnoc(s[1..], k - 1);
    }
  }

  /** The sum of the real numbers of a sequence. */
  function SumReal(s: seq<real>): real
  {
    if s == [] then 0.0 else s[0] + SumReal(s[1..])
  }

  /** Summing a real prefix one element longer adds that element at the end. */
  lemma {:induction false} SumRealSnoc(s: seq<real>, k: nat)
    requires k < |s|
    ensures SumReal(s[..k + 1]) == SumReal(s[..k]) + s[k]
  {
    if k > 0 {
      assert s[..k + 1][1..] == s[1..][..k];
      assert s[..k][1..] == s[1..][..k - 1];
      SumRealSnoc(s[1..], k - 1);
    }
  }
}

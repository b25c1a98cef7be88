/** Manhattan distance between two points of the plane (src/utils/distance.js). */
module Distance {

  /** A location; coordinates are integers. */
  datatype Point = Point(x: int, y: int)

  function Abs(n: int): (r: nat)
    ensures r == n || r == -n
  {
    if n < 0 then -n else n
  }

  /** `calculateDistance(point1, point2)`: |x1 - x2| + |y1 - y2|. */
  function CalculateDistance(a: Point, b: Point): (d: nat)
    ensures d == 0 <==> a == b
  {
    Abs(a.x - b.x) + Abs(a.y - b.y)
  }

  /** The worked example: from (0,0) to (3,4) is 7. */
  lemma DistanceExample()
    ensures CalculateDistance(Point(0, 0), Point(3, 4)) == 7
  {
  }

  /** Distance does not depend on the direction of travel. */
  lemma DistanceSymmetric(a: Point, b: Point)
    ensures CalculateDistance(a, b) == CalculateDistance(b, a)
  {
  }

  /** Going through a third point is never shorter. */
  lemma TriangleInequality(a: Point, b: Point, c: Point)
    ensures CalculateDistance(a, c) <= CalculateDistance(a, b) + CalculateDistance(b, c)
  {
  }
}

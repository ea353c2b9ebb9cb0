/** The bounding-box test of `checkCollision`. Lanes are converted to a
    horizontal centre by multiplying by 25; the tank occupies a fixed band
    between 120 and 40 pixels above the bottom of the screen. */
module Collision {

  /** The tank as the test sees it: its lane and its width in pixels. */
  datatype TankBox = TankBox(position: int, width: real)

  /** A falling object: its lane, the y of its top edge, and its size. */
  datatype ObjectBox = ObjectBox(x: int, y: real, width: real, height: real)

  /** Horizontal centre of a lane. */
  function LaneCentre(lane: int): real {
    25.0 * lane as real
  }

  function Abs(v: real): (a: real)
    ensures a >= 0.0 && (a == v || a == -v)
  {
    if v < 0.0 then -v else v
  }

  /** `checkCollision`: the two boxes are not separated along either axis.
      Each rejection is a strict comparison, so boxes that only touch collide. */
  function CheckCollision(tank: TankBox, obj: ObjectBox, screenHeight: real): (hit: bool)
    ensures hit <==>
      && Abs(LaneCentre(tank.position) - LaneCentre(obj.x)) <= (tank.width + obj.width) / 2.0
      && obj.y <= screenHeight - 40.0
      && obj.y + obj.height >= screenHeight - 120.0
  {
    var tankLeft := LaneCentre(tank.position) - tank.width / 2.0;
    var tankRight := LaneCentre(tank.position) + tank.width / 2.0;
    var tankTop := screenHeight - 120.0;
    var tankBottom := screenHeight - 40.0;
    var objectLeft := LaneCentre(obj.x) - obj.width / 2.0;
    var objectRight := LaneCentre(obj.x) + obj.width / 2.0;
    var objectTop := obj.y;
    var objectBottom := obj.y + obj.height;
    !(tankRight < objectLeft || tankLeft > objectRight || tankBottom < objectTop || tankTop > objectBottom)
  }

  /** The point `(px, py)` lies in the tank's closed box. */
  predicate InTank(tank: TankBox, screenHeight: real, px: real, py: real) {
    && LaneCentre(tank.position) - tank.width / 2.0 <= px <= LaneCentre(tank.position) + tank.width / 2.0
    && screenHeight - 120.0 <= py <= screenHeight - 40.0
  }

  /** The point `(px, py)` lies in the object's closed box. */
  predicate InObject(obj: ObjectBox, px: real, py: real) {
    && LaneCentre(obj.x) - obj.width / 2.0 <= px <= LaneCentre(obj.x) + obj.width / 2.0
    && obj.y <= py <= obj.y + obj.height
  }

  /** For boxes of non-negative size, a collision is exactly a point the two
      closed boxes share. */
  lemma CollisionIsCommonPoint(tank: TankBox, obj: ObjectBox, screenHeight: real)
    requires tank.width >= 0.0 && obj.width >= 0.0 && obj.height >= 0.0
    ensures CheckCollision(tank, obj, screenHeight) <==>
      exists px: real, py: real :: InTank(tank, screenHeight, px, py) && InObject(obj, px, py)
  {
    if CheckCollision(tank, obj, screenHeight) {
      var tl := LaneCentre(tank.position) - tank.width / 2.0;
      var ol := LaneCentre(obj.x) - obj.width / 2.0;
      var px := if tl < ol then ol else tl;
      var py := if obj.y < screenHeight - 120.0 then screenHeight - 120.0 else obj.y;
      assert InTank(tank, screenHeight, px, py) && InObject(obj, px, py);
    }
  }

  /** An 80-pixel mine against the 80-pixel tank: any mine up to three lanes
      away overlaps horizontally, and vertically it must have its top edge
      between 200 and 40 pixels above the bottom of the screen. */
  lemma MineReach(lane: int, x: int, y: real, screenHeight: real)
    ensures CheckCollision(TankBox(lane, 80.0), ObjectBox(x, y, 80.0, 80.0), screenHeight) <==>
      -3 <= lane - x <= 3 && screenHeight - 200.0 <= y <= screenHeight - 40.0
  {
    LanesWithin(lane - x, 80.0, 3);
  }

  /** A 40-pixel coin against the 80-pixel tank: up to two lanes away, with its
      top edge between 160 and 40 pixels above the bottom of the screen. */
  lemma CoinReach(lane: int, x: int, y: real, screenHeight: real)
    ensures CheckCollision(TankBox(lane, 80.0), ObjectBox(x, y, 40.0, 40.0), screenHeight) <==>
      -2 <= lane - x <= 2 && screenHeight - 160.0 <= y <= screenHeight - 40.0
  {
    LanesWithin(lane - x, 60.0, 2);
  }

  /** Lane distances `d` whose centres lie within `reach` pixels, for a reach
      between `n` and `n + 1` lanes. */
  lemma LanesWithin(d: int, reach: real, n: int)
    requires 25.0 * n as real <= reach < 25.0 * (n + 1) as real
    ensures Abs(25.0 * d as real) <= reach <==> -n <= d <= n
  {
    if d > n {
      assert d >= n + 1;
      assert d as real >= (n + 1) as real;
    } else if d < -n {
      assert d <= -n - 1;
      assert d as real <= (-n - 1) as real;
    }
  }
}

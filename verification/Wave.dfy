/** The simulated temperature of device/device.c: two integers stepped in place by the
    data thread. */
module Wave {

  datatype Point = Point(current: int, direction: int)

  /** One step: turn round at the ends, then move. */
  function Next(p: Point): Point {
    var d := if p.current >= 100 then -1 else if p.current <= 1 then 1 else p.direction;
    Point(p.current + d, d)
  }

  /** The point after n steps from where the thread starts. */
  function After(n: nat): Point {
    if n == 0 then Point(1, 1) else Next(After(n - 1))
  }

  lemma AfterNext(n: nat)
    ensures After(n + 1) == Next(After(n))
  {
  }

  class Simulation {
    var current: int
    var direction: int

    constructor ()
      ensures Here() == After(0)
    {
      current, direction := 1, 1;
    }

    function Here(): Point
      reads this
    {
      Point(current, direction)
    }

    method Step() returns (value: int)
      modifies this
      ensures Here() == Next(old(Here())) && value == current
    {
      if current >= 100 {
        direction := -1;
      } else if current <= 1 {
        direction := 1;
      }
      current := current + direction;
      value := current;
    }
  }

  /** The triangle wave of period 198 between 1 and 100. */
  function Triangle(n: nat): int {
    var m := n % 198;
    if m <= 99 then 1 + m else 199 - m
  }

  lemma PhaseStep(n: nat)
    ensures (n + 1) % 198 == if n % 198 == 197 then 0 else n % 198 + 1
  {
    var q, r := n / 198, n % 198;
    assert n + 1 == if r == 197 then 198 * (q + 1) else 198 * q + (r + 1);
  }

  /** Every run is the triangle wave, so it never leaves 1..100. */
  lemma {:induction false} WaveIsTriangle(n: nat)
    ensures After(n).current == Triangle(n) && 1 <= After(n).current <= 100
    ensures n > 0 ==> After(n).direction == (if 1 <= n % 198 <= 99 then 1 else -1)
  {
    if n > 0 {
      WaveIsTriangle(n - 1);
      PhaseStep(n - 1);
    }
  }
}

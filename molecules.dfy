/**
 * One "molecule" of the canvas background (main.js:166-198): a point with a
 * velocity, a fixed size and a fixed colour, moved once per frame and kept
 * inside the viewport by reflection and clamping.
 */
module Molecules {
  import opened P5Helpers

  /** The colours a molecule may be born with. */
  const Palette: seq<string> := ["#38b2ac", "#ed8936", "#4299e1"]

  /** Largest speed per axis at birth: velocities are drawn from `random(-0.5, 0.5)`. */
  const MaxSpeed: real := 0.5

  /** Bounds of the `size` draw, `random(3, 8)`. */
  const MinSize: real := 3.0
  const MaxSize: real := 8.0

  function Abs(v: real): real {
    if v < 0.0 then -v else v
  }

  /** The six `Math.random()` samples that the constructor consumes, in call order. */
  datatype Samples = Samples(x: real, y: real, vx: real, vy: real, size: real, color: real)
  {
    predicate Valid() {
      IsUnitSample(x) && IsUnitSample(y) && IsUnitSample(vx) && IsUnitSample(vy)
      && IsUnitSample(size) && IsUnitSample(color)
    }
  }

  /** The value of a molecule's fields (the p5 handle it keeps is left out). */
  datatype State = State(x: real, y: real, vx: real, vy: real, size: real, color: string)

  /** Position and velocity along one axis. */
  datatype Axis = Axis(pos: real, vel: real)

  /** A coordinate at `0 <= v <= bound` is on screen. */
  predicate Within(v: real, bound: real) {
    0.0 <= v <= bound
  }

  predicate Inside(s: State, width: real, height: real) {
    Within(s.x, width) && Within(s.y, height)
  }

  /** What a draw of `random(max)` can give for `max >= 0`: `[0, max)`, or just 0 when `max` is 0. */
  predicate BelowBound(v: real, max: real) {
    0.0 <= v <= max && (max > 0.0 ==> v < max)
  }

  /** The ranges main.js:169-174 draw a new molecule's fields from. */
  predicate Born(s: State, width: real, height: real) {
    BelowBound(s.x, width) && BelowBound(s.y, height)
    && -MaxSpeed <= s.vx < MaxSpeed && -MaxSpeed <= s.vy < MaxSpeed
    && MinSize <= s.size < MaxSize
    && s.color in Palette
  }

  /** What stays true of a molecule for ever: the static attributes and the speed bound. */
  predicate WellFormed(s: State) {
    Abs(s.vx) <= MaxSpeed && Abs(s.vy) <= MaxSpeed
    && MinSize <= s.size < MaxSize
    && s.color in Palette
  }

  /** The constructor, main.js:167-175, on given random samples. */
  function Spawn(width: real, height: real, u: Samples): (s: State)
    requires width >= 0.0 && height >= 0.0 && u.Valid()
    ensures Born(s, width, height)
    ensures WellFormed(s)
  {
    State(RandomBelow(u.x, width), RandomBelow(u.y, height),
          Random(u.vx, -MaxSpeed, MaxSpeed), Random(u.vy, -MaxSpeed, MaxSpeed),
          Random(u.size, MinSize, MaxSize), RandomChoice(u.color, Palette))
  }

  /** The sample that `random(max)` turns into `v`. */
  function BelowSample(v: real, max: real): real {
    if max > 0.0 then v / max else 0.0
  }

  lemma BelowSampleInverse(v: real, max: real)
    requires max >= 0.0 && BelowBound(v, max)
    ensures IsUnitSample(BelowSample(v, max)) && RandomBelow(BelowSample(v, max), max) == v
  {
    if max > 0.0 {
      RandomBelowInverse(v, max);
    }
  }

  /** The samples from which the constructor builds `s`; they exist for every state in the ranges. */
  ghost function SamplesFor(s: State, width: real, height: real): (u: Samples)
    requires width >= 0.0 && height >= 0.0 && Born(s, width, height)
    ensures u.Valid() && Spawn(width, height, u) == s
  {
    BelowSampleInverse(s.x, width);
    BelowSampleInverse(s.y, height);
    RandomInverse(s.vx, -MaxSpeed, MaxSpeed);
    RandomInverse(s.vy, -MaxSpeed, MaxSpeed);
    RandomInverse(s.size, MinSize, MaxSize);
    var k :| 0 <= k < |Palette| && Palette[k] == s.color;
    RandomChoiceInverse(Palette, k);
    Samples(BelowSample(s.x, width), BelowSample(s.y, height),
            (s.vx - -MaxSpeed) / (MaxSpeed - -MaxSpeed), (s.vy - -MaxSpeed) / (MaxSpeed - -MaxSpeed),
            (s.size - MinSize) / (MaxSize - MinSize), k as real / |Palette| as real)
  }

  /**
   * The constructor can produce every state in the stated ranges: the random
   * draws amount to a free choice within them.
   */
  lemma SpawnReachesAll(s: State, width: real, height: real)
    requires width >= 0.0 && height >= 0.0 && Born(s, width, height)
    ensures exists u: Samples :: u.Valid() && Spawn(width, height, u) == s
  {
    var u := SamplesFor(s, width, height);
    assert u.Valid() && Spawn(width, height, u) == s;
  }

  /** The strictly-outside test of the bounce, main.js:182-183. */
  predicate Outside(v: real, bound: real) {
    v < 0.0 || v > bound
  }

  /** One axis of `update()`, main.js:178-187: move, bounce, clamp. */
  function AxisStep(a: Axis, bound: real): (r: Axis)
    ensures bound >= 0.0 ==> Within(r.pos, bound)
    ensures Outside(a.pos + a.vel, bound) ==> r.vel == -a.vel
    ensures !Outside(a.pos + a.vel, bound) ==> r == Axis(a.pos + a.vel, a.vel)
    ensures a.pos + a.vel < 0.0 ==> r.pos == 0.0
    ensures a.pos + a.vel > bound >= 0.0 ==> r.pos == bound
  {
    var moved := a.pos + a.vel;
    var vel := if Outside(moved, bound) then -a.vel else a.vel;
    Axis(Constrain(moved, 0.0, bound), vel)
  }

  /** `update()`, main.js:177-188, on the value of the molecule. */
  function Step(s: State, width: real, height: real): (r: State)
    ensures r.size == s.size && r.color == s.color
  {
    var ax := AxisStep(Axis(s.x, s.vx), width);
    var ay := AxisStep(Axis(s.y, s.vy), height);
    s.(x := ax.pos, vx := ax.vel, y := ay.pos, vy := ay.vel)
  }

  /** After a step the molecule is on screen, wherever it was before. */
  lemma StepInside(s: State, width: real, height: real)
    requires width >= 0.0 && height >= 0.0
    ensures Inside(Step(s, width, height), width, height)
  {
  }

  /**
   * Each velocity component is negated exactly when the moved coordinate is
   * strictly outside its range and kept otherwise; so speeds are unchanged.
   */
  lemma StepReflects(s: State, width: real, height: real)
    ensures Step(s, width, height).vx == if Outside(s.x + s.vx, width) then -s.vx else s.vx
    ensures Step(s, width, height).vy == if Outside(s.y + s.vy, height) then -s.vy else s.vy
    ensures Abs(Step(s, width, height).vx) == Abs(s.vx)
    ensures Abs(Step(s, width, height).vy) == Abs(s.vy)
  {
  }

  /** A molecule landing exactly on an edge keeps its velocity. */
  lemma EdgeLandingKeepsVelocity(s: State, width: real, height: real)
    requires s.x + s.vx == 0.0 || s.x + s.vx == width
    requires width >= 0.0
    ensures Step(s, width, height).vx == s.vx && Step(s, width, height).x == s.x + s.vx
  {
  }

  /** Moving to a point inside the viewport is a plain translation: the clamp does nothing. */
  lemma StepTranslatesInside(s: State, width: real, height: real)
    requires Within(s.x + s.vx, width) && Within(s.y + s.vy, height)
    ensures Step(s, width, height) == s.(x := s.x + s.vx, y := s.y + s.vy)
  {
  }

  /** Leaving past the far edge, a molecule moving outward turns back, clamped onto the edge. */
  lemma StepBouncesBack(s: State, width: real, height: real)
    requires width >= 0.0 && s.vx > 0.0 && s.x + s.vx > width
    ensures Step(s, width, height).vx < 0.0 && Step(s, width, height).x == width
  {
  }

  /** A step keeps what a molecule keeps for ever. */
  lemma StepWellFormed(s: State, width: real, height: real)
    requires WellFormed(s)
    ensures WellFormed(Step(s, width, height))
  {
  }

  /** Example: a molecule at (99, 50) moving at (2, 0) on a canvas 100 wide overshoots the right edge. */
  lemma StepExample()
    ensures Step(State(99.0, 50.0, 2.0, 0.0, 4.0, "#38b2ac"), 100.0, 100.0)
         == State(100.0, 50.0, -2.0, 0.0, 4.0, "#38b2ac")
  {
  }

  /** A molecule object: `Molecule` of main.js:166-198. */
  class Molecule {
    var x: real
    var y: real
    var vx: real
    var vy: real
    var size: real
    var color: string

    ghost function Value(): State
      reads this
    {
      State(x, y, vx, vy, size, color)
    }

    /** The constructor, main.js:167-175, drawing the six samples `u` in order. */
    constructor (width: real, height: real, u: Samples)
      requires width >= 0.0 && height >= 0.0 && u.Valid()
      ensures Value() == Spawn(width, height, u)
      ensures Born(Value(), width, height)
    {
      x := RandomBelow(u.x, width);
      y := RandomBelow(u.y, height);
      vx := Random(u.vx, -MaxSpeed, MaxSpeed);
      vy := Random(u.vy, -MaxSpeed, MaxSpeed);
      size := Random(u.size, MinSize, MaxSize);
      color := RandomChoice(u.color, Palette);
    }

    /** `update()`, main.js:177-188, for the current viewport `width` by `height`. */
    method Update(width: real, height: real)
      modifies this`x, this`y, this`vx, this`vy
      ensures Value() == Step(old(Value()), width, height)
      ensures width >= 0.0 ==> Within(x, width)
      ensures height >= 0.0 ==> Within(y, height)
      ensures size == old(size) && color == old(color)
    {
      x := x + vx;
      y := y + vy;
      if x < 0.0 || x > width {
        vx := -vx;
      }
      if y < 0.0 || y > height {
        vy := -vy;
      }
      x := Constrain(x, 0.0, width);
      y := Constrain(y, 0.0, height);
    }
  }
}

/**
 * The p5 sketch of `initializeMolecularBackground`, main.js:134-163: the
 * `molecules` array built by `setup`, advanced and connected by `draw`, and
 * the viewport that `windowResized` changes.
 */
module Background {
  import opened Molecules
  import opened Connections

  /** The number of molecules `setup` creates, main.js:142. */
  const MoleculeCount: nat := 20

  /** The canvas size: `p.width` and `p.height`. */
  datatype Viewport = Viewport(width: real, height: real)

  predicate Shown(v: Viewport) {
    v.width >= 0.0 && v.height >= 0.0
  }

  /** The update half of one `draw`, on the molecules' values. */
  function Frame(states: seq<State>, v: Viewport): (r: seq<State>)
    ensures |r| == |states|
    ensures forall k :: 0 <= k < |r| ==> r[k] == Step(states[k], v.width, v.height)
  {
    seq(|states|, k requires 0 <= k < |states| => Step(states[k], v.width, v.height))
  }

  /** The molecules after one frame per viewport in `views`, in order. */
  function Run(states: seq<State>, views: seq<Viewport>): seq<State>
    decreases |views|
  {
    if views == [] then states else Run(Frame(states, views[0]), views[1..])
  }

  predicate AllInside(states: seq<State>, v: Viewport) {
    forall k :: 0 <= k < |states| ==> Inside(states[k], v.width, v.height)
  }

  /** After one frame every molecule is on screen in that frame's viewport, wherever it was before. */
  lemma FrameInside(states: seq<State>, v: Viewport)
    requires Shown(v)
    ensures AllInside(Frame(states, v), v)
  {
  }

  /** A frame keeps what every molecule keeps for ever. */
  lemma FrameWellFormed(states: seq<State>, v: Viewport)
    requires forall k :: 0 <= k < |states| ==> WellFormed(states[k])
    ensures forall k :: 0 <= k < |states| ==> WellFormed(Frame(states, v)[k])
  {
  }

  /**
   * However many frames run, each under its own viewport (a resize brings
   * one frame under the new size),
   * after the last frame every molecule is inside the last viewport.
   */
  lemma {:induction false} RunInside(states: seq<State>, views: seq<Viewport>)
    requires |views| > 0 && forall k :: 0 <= k < |views| ==> Shown(views[k])
    ensures AllInside(Run(states, views), views[|views| - 1])
    decreases |views|
  {
    if |views| == 1 {
      FrameInside(states, views[0]);
      assert Run(Frame(states, views[0]), []) == Frame(states, views[0]);
    } else {
      RunInside(Frame(states, views[0]), views[1..]);
    }
  }

  /**
   * Frames never add or remove molecules, never change a size or a colour,
   * and never change a speed.
   */
  lemma {:induction false} RunKeeps(states: seq<State>, views: seq<Viewport>)
    ensures |Run(states, views)| == |states|
    ensures forall k :: 0 <= k < |states| ==>
      var s, t := states[k], Run(states, views)[k];
      t.size == s.size && t.color == s.color && Abs(t.vx) == Abs(s.vx) && Abs(t.vy) == Abs(s.vy)
    decreases |views|
  {
    if views != [] {
      var next := Frame(states, views[0]);
      RunKeeps(next, views[1..]);
      forall k | 0 <= k < |states| ensures Abs(next[k].vx) == Abs(states[k].vx) && Abs(next[k].vy) == Abs(states[k].vy) {
        StepReflects(states[k], views[0].width, views[0].height);
      }
    }
  }

  /** No molecule object occurs twice. */
  predicate Distinct(ms: seq<Molecule>) {
    forall p, q :: 0 <= p < q < |ms| ==> ms[p] != ms[q]
  }

  /** The p5 instance of main.js:134-163. */
  class Sketch {
    var molecules: seq<Molecule>
    var width: real
    var height: real

    /** The molecules are 20 distinct objects, each keeping its static attributes and speed bound. */
    ghost predicate Valid()
      reads this, molecules
    {
      Shown(Viewport(width, height))
      && |molecules| == MoleculeCount
      && Distinct(molecules)
      && forall k :: 0 <= k < |molecules| ==> WellFormed(molecules[k].Value())
    }

    /** The values of the molecules, in array order. */
    ghost function States(): (r: seq<State>)
      reads this, molecules
      ensures |r| == |molecules|
      ensures forall k :: 0 <= k < |r| ==> r[k] == molecules[k].Value()
    {
      seq(|molecules|, k reads this, molecules requires 0 <= k < |molecules| => molecules[k].Value())
    }

    /**
     * `setup`, main.js:137-145: a canvas of the window's size and 20 new
     * molecules pushed in order, the k-th drawn from `samples[k]`.
     */
    constructor Setup(windowWidth: real, windowHeight: real, samples: seq<Samples>)
      requires Shown(Viewport(windowWidth, windowHeight))
      requires |samples| == MoleculeCount && forall k :: 0 <= k < |samples| ==> samples[k].Valid()
      ensures Valid()
      ensures width == windowWidth && height == windowHeight
      ensures forall k :: 0 <= k < |molecules| ==> fresh(molecules[k])
      ensures forall k :: 0 <= k < |molecules| ==>
        molecules[k].Value() == Spawn(windowWidth, windowHeight, samples[k])
        && Born(molecules[k].Value(), windowWidth, windowHeight)
    {
      var created: seq<Molecule> := [];
      for i := 0 to MoleculeCount
        invariant |created| == i
        invariant forall k :: 0 <= k < i ==> fresh(created[k])
        invariant Distinct(created)
        invariant forall k :: 0 <= k < i ==> created[k].Value() == Spawn(windowWidth, windowHeight, samples[k])
      {
        var m := new Molecule(windowWidth, windowHeight, samples[i]);
        created := created + [m];
      }
      molecules := created;
      width := windowWidth;
      height := windowHeight;
    }

    /**
     * `draw`, main.js:147-158: every molecule updated once, in array order,
     * then the connections of the new positions.
     */
    method Draw(dist: Distance) returns (lines: seq<Line>)
      requires Valid()
      modifies molecules
      ensures Valid()
      ensures States() == Frame(old(States()), Viewport(width, height))
      ensures AllInside(States(), Viewport(width, height))
      ensures lines == AllLines(Positions(molecules), dist)
    {
      var i := 0;
      while i < |molecules|
        invariant 0 <= i <= |molecules|
        invariant Distinct(molecules)
        invariant forall k :: 0 <= k < i ==>
          molecules[k].Value() == Step(old(molecules[k].Value()), width, height)
        invariant forall k :: i <= k < |molecules| ==> molecules[k].Value() == old(molecules[k].Value())
      {
        molecules[i].Update(width, height);
        i := i + 1;
      }
      ghost var before, view := old(States()), Viewport(width, height);
      assert States() == Frame(before, view);
      FrameInside(before, view);
      FrameWellFormed(before, view);
      lines := DrawConnections(molecules, dist);
    }

    /**
     * `windowResized`, main.js:160-162. p5's `resizeCanvas`, called without
     * its `noRedraw` argument, sets the new size and then redraws at once,
     * which runs `draw` a single time under the new bounds.
     */
    method WindowResized(windowWidth: real, windowHeight: real, dist: Distance) returns (lines: seq<Line>)
      requires Valid() && Shown(Viewport(windowWidth, windowHeight))
      modifies this`width, this`height, molecules
      ensures Valid()
      ensures width == windowWidth && height == windowHeight && molecules == old(molecules)
      ensures States() == Frame(old(States()), Viewport(windowWidth, windowHeight))
      ensures AllInside(States(), Viewport(windowWidth, windowHeight))
      ensures lines == AllLines(Positions(molecules), dist)
    {
      width := windowWidth;
      height := windowHeight;
      lines := Draw(dist);
    }
  }
}

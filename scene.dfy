/** The sketch's global scene: the shape list, the background colour index
    and the time of the last automatic spawn, with `draw()`, `keyPressed()`
    and `mousePressed()` acting on them. */
module Sketch {
  import opened Shapes
  import opened Palette

  /** Milliseconds that must pass before `draw()` adds a shape by itself. */
  const SpawnInterval: real := 1000.0

  /** Every shape after one `update()`, in the same order. */
  function UpdateAll(shapes: seq<RandomShape>, trig: Trig): (r: seq<RandomShape>)
    ensures |r| == |shapes|
    ensures forall k :: 0 <= k < |r| ==> r[k] == Updated(shapes[k], trig)
  {
    if shapes == [] then [] else [Updated(shapes[0], trig)] + UpdateAll(shapes[1..], trig)
  }

  /** The shapes whose fade counter is still positive, in the same order. */
  function KeepAlive(shapes: seq<RandomShape>): seq<RandomShape> {
    if shapes == [] then []
    else (if shapes[0].alpha > 0 then [shapes[0]] else []) + KeepAlive(shapes[1..])
  }

  /** What the loop of `draw()` leaves: update everyone, then drop the faded. */
  function Prune(shapes: seq<RandomShape>, trig: Trig): seq<RandomShape> {
    KeepAlive(UpdateAll(shapes, trig))
  }

  /** A shape is kept exactly when its fade counter is positive. */
  lemma {:induction false} KeepAliveMembers(shapes: seq<RandomShape>, s: RandomShape)
    ensures s in KeepAlive(shapes) <==> s in shapes && s.alpha > 0
    decreases |shapes|
  {
    if shapes != [] {
      KeepAliveMembers(shapes[1..], s);
      assert shapes == [shapes[0]] + shapes[1..];
    }
  }

  /** Filtering distributes over concatenation: survivors keep their relative order. */
  lemma {:induction false} KeepAliveAppend(a: seq<RandomShape>, b: seq<RandomShape>)
    ensures KeepAlive(a + b) == KeepAlive(a) + KeepAlive(b)
    decreases |a|
  {
    if a != [] {
      var head := if a[0].alpha > 0 then [a[0]] else [];
      assert (a + b)[0] == a[0] && (a + b)[1..] == a[1..] + b;
      KeepAliveAppend(a[1..], b);
      calc {
        KeepAlive(a + b);
        head + KeepAlive(a[1..] + b);
        head + (KeepAlive(a[1..]) + KeepAlive(b));
        (head + KeepAlive(a[1..])) + KeepAlive(b);
        KeepAlive(a) + KeepAlive(b);
      }
    } else {
      assert a + b == b;
    }
  }

  /** The filter keeps nothing twice: its length is at most that of its input. */
  lemma {:induction false} KeepAliveShorter(shapes: seq<RandomShape>)
    ensures |KeepAlive(shapes)| <= |shapes|
    ensures |KeepAlive(shapes)| == |shapes| <==> forall k :: 0 <= k < |shapes| ==> shapes[k].alpha > 0
    decreases |shapes|
  {
    if shapes != [] {
      KeepAliveShorter(shapes[1..]);
      if shapes[0].alpha > 0 {
        assert forall k :: 1 <= k < |shapes| ==> shapes[k] == shapes[1..][k - 1];
      }
    }
  }

  /** After the loop every shape present at the start has been updated once, a
      shape was dropped exactly when its updated counter is not positive, and no
      faded shape remains. */
  lemma PruneMembers(shapes: seq<RandomShape>, trig: Trig, s: RandomShape)
    ensures s in Prune(shapes, trig) <==> s.alpha > 0 && exists k :: 0 <= k < |shapes| && s == Updated(shapes[k], trig)
  {
    var updated := UpdateAll(shapes, trig);
    KeepAliveMembers(updated, s);
    if s in updated {
      var k :| 0 <= k < |updated| && updated[k] == s;
      assert s == Updated(shapes[k], trig);
    }
  }

  /** The loop's step: processing index i prepends that shape's fate to the processed suffix. */
  lemma PruneCons(shapes: seq<RandomShape>, i: int, trig: Trig)
    requires 0 <= i < |shapes|
    ensures Prune(shapes[i..], trig)
         == (if Updated(shapes[i], trig).alpha > 0 then [Updated(shapes[i], trig)] else [])
            + Prune(shapes[i + 1..], trig)
  {
  }

  /** Healthy shapes stay healthy through the loop. */
  lemma PruneHealthy(shapes: seq<RandomShape>, trig: Trig)
    requires forall s :: s in shapes ==> Healthy(s)
    ensures forall s :: s in Prune(shapes, trig) ==> Healthy(s)
  {
    forall s | s in Prune(shapes, trig) ensures Healthy(s) {
      PruneMembers(shapes, trig, s);
      var k :| 0 <= k < |shapes| && s == Updated(shapes[k], trig);
      UpdatedHealthy(shapes[k], trig);
    }
  }

  /** The shape list after n frames of `draw()` in which nothing is spawned. */
  function PruneN(shapes: seq<RandomShape>, n: nat, trig: Trig): seq<RandomShape>
    decreases n
  {
    if n == 0 then shapes else PruneN(Prune(shapes, trig), n - 1, trig)
  }

  /** Updating distributes over concatenation. */
  lemma UpdateAllAppend(a: seq<RandomShape>, b: seq<RandomShape>, trig: Trig)
    ensures UpdateAll(a + b, trig) == UpdateAll(a, trig) + UpdateAll(b, trig)
  {
  }

  /** A shape's fate in one frame does not depend on the shapes around it. */
  lemma PruneAppend(a: seq<RandomShape>, b: seq<RandomShape>, trig: Trig)
    ensures Prune(a + b, trig) == Prune(a, trig) + Prune(b, trig)
  {
    UpdateAllAppend(a, b, trig);
    KeepAliveAppend(UpdateAll(a, trig), UpdateAll(b, trig));
  }

  /** The shapes of `shapes` whose counter exceeds n, each updated n times, in order. */
  function AgedSurvivors(shapes: seq<RandomShape>, n: nat, trig: Trig): seq<RandomShape> {
    if shapes == [] then []
    else (if shapes[0].alpha > n then [UpdatedN(shapes[0], n, trig)] else [])
         + AgedSurvivors(shapes[1..], n, trig)
  }

  lemma {:induction false} AgedSurvivorsAppend(a: seq<RandomShape>, b: seq<RandomShape>, n: nat, trig: Trig)
    ensures AgedSurvivors(a + b, n, trig) == AgedSurvivors(a, n, trig) + AgedSurvivors(b, n, trig)
    decreases |a|
  {
    if a == [] {
      assert a + b == b;
    } else {
      assert (a + b)[0] == a[0] && (a + b)[1..] == a[1..] + b;
      AgedSurvivorsAppend(a[1..], b, n, trig);
    }
  }

  /** One frame followed by n-1 more ages each shape by n frames. */
  lemma {:induction false} PruneAged(shapes: seq<RandomShape>, n: nat, trig: Trig)
    requires n >= 1
    ensures AgedSurvivors(Prune(shapes, trig), n - 1, trig) == AgedSurvivors(shapes, n, trig)
    decreases |shapes|
  {
    if shapes != [] {
      var x, rest := shapes[0], shapes[1..];
      assert shapes == [x] + rest;
      PruneAppend([x], rest, trig);
      var u := Updated(x, trig);
      assert UpdateAll([x], trig) == [u];
      assert [u][1..] == [];
      assert KeepAlive([u]) == (if u.alpha > 0 then [u] else []) + KeepAlive([]);
      assert Prune([x], trig) == if u.alpha > 0 then [u] else [];
      assert UpdatedN(x, n, trig) == UpdatedN(u, n - 1, trig);
      AgedSurvivorsAppend(Prune([x], trig), Prune(rest, trig), n - 1, trig);
      PruneAged(rest, n, trig);
    }
  }

  /** With no spawns, after n frames exactly the shapes whose counter exceeded
      n remain, each updated once per frame, in their original order. */
  lemma {:induction false} FramesLifetime(shapes: seq<RandomShape>, n: nat, trig: Trig)
    requires n > 0 || forall s :: s in shapes ==> s.alpha > 0
    ensures PruneN(shapes, n, trig) == AgedSurvivors(shapes, n, trig)
    decreases n
  {
    if n == 0 {
      AgedSurvivorsNone(shapes, trig);
    } else {
      forall s | s in Prune(shapes, trig) ensures s.alpha > 0 {
        PruneMembers(shapes, trig, s);
      }
      FramesLifetime(Prune(shapes, trig), n - 1, trig);
      PruneAged(shapes, n, trig);
    }
  }

  lemma {:induction false} AgedSurvivorsNone(shapes: seq<RandomShape>, trig: Trig)
    requires forall s :: s in shapes ==> s.alpha > 0
    ensures AgedSurvivors(shapes, 0, trig) == shapes
    decreases |shapes|
  {
    if shapes != [] {
      AgedSurvivorsNone(shapes[1..], trig);
    }
  }

  /** The shape list after frames in which shapes are also added: frame i runs
      the loop of `draw()`, then `added[i]` is appended (the timed spawn of
      that frame and any mouse clicks before the next one). */
  function Run(shapes: seq<RandomShape>, added: seq<seq<RandomShape>>, trig: Trig): seq<RandomShape>
    decreases |added|
  {
    if added == [] then shapes else Run(Prune(shapes, trig) + added[0], added[1..], trig)
  }

  /** Shapes at the front of the list evolve as if alone, whatever follows them
      and whatever is appended later; the rest evolves as if they were absent. */
  lemma {:induction false} RunSplit(a: seq<RandomShape>, b: seq<RandomShape>, added: seq<seq<RandomShape>>, trig: Trig)
    ensures Run(a + b, added, trig) == PruneN(a, |added|, trig) + Run(b, added, trig)
    decreases |added|
  {
    if added != [] {
      PruneAppend(a, b, trig);
      assert Prune(a + b, trig) + added[0] == Prune(a, trig) + (Prune(b, trig) + added[0]);
      RunSplit(Prune(a, trig), Prune(b, trig) + added[0], added[1..], trig);
    }
  }

  /** A shape appended to the scene is still listed after each of the next
      n < alpha frames, updated once per frame and behind the shapes before it
      and ahead of everything added later, and is gone from the frame alpha on
      (frame 255 for a new shape), whatever else is spawned or clicked. */
  lemma SpawnLifetime(shapes: seq<RandomShape>, s: RandomShape, added: seq<seq<RandomShape>>, trig: Trig)
    requires |added| > 0 || (s.alpha > 0 && forall t :: t in shapes ==> t.alpha > 0)
    ensures Run(shapes + [s], added, trig)
         == AgedSurvivors(shapes, |added|, trig)
            + (if s.alpha > |added| then [UpdatedN(s, |added|, trig)] else [])
            + Run([], added, trig)
  {
    var n := |added|;
    RunSplit(shapes, [s], added, trig);
    SpawnAlone(s, added, trig);
    FramesLifetime(shapes, n, trig);
  }

  /** The appended shape's own part of the run. */
  lemma SpawnAlone(s: RandomShape, added: seq<seq<RandomShape>>, trig: Trig)
    requires |added| > 0 || s.alpha > 0
    ensures Run([s], added, trig)
         == (if s.alpha > |added| then [UpdatedN(s, |added|, trig)] else []) + Run([], added, trig)
  {
    var n := |added|;
    assert [s] + [] == [s];
    RunSplit([s], [], added, trig);
    FramesLifetime([s], n, trig);
    assert [s][1..] == [];
    assert AgedSurvivors([s], n, trig) == (if s.alpha > n then [UpdatedN(s, n, trig)] else []) + AgedSurvivors([], n, trig);
  }

  /** With no spawns, a list whose counters are all at most n (n > 0) is empty
      after n frames: 255 frames clear any scene. */
  lemma {:induction false} EmptyAfterFrames(shapes: seq<RandomShape>, n: nat, trig: Trig)
    requires n > 0
    requires forall s :: s in shapes ==> s.alpha <= n
    ensures PruneN(shapes, n, trig) == []
    decreases n
  {
    var next := Prune(shapes, trig);
    forall s | s in next ensures s.alpha <= n - 1 {
      PruneMembers(shapes, trig, s);
    }
    if n == 1 {
      if next != [] {
        PruneMembers(shapes, trig, next[0]);
        assert false;
      }
    } else {
      EmptyAfterFrames(next, n - 1, trig);
    }
  }

  class Scene {
    /** `shapes`, `bgColorIndex` and `lastShapeAddedTime`. */
    var shapes: seq<RandomShape>
    var bgColorIndex: int
    var lastShapeAddedTime: real

    /** The palette index is in range and every listed shape is healthy, in
        particular none has faded out. */
    ghost predicate Valid()
      reads this
    {
      && 0 <= bgColorIndex < |BgColors|
      && forall s :: s in shapes ==> Healthy(s)
    }

    /** The initial values of the three globals. */
    constructor ()
      ensures Valid()
      ensures shapes == [] && bgColorIndex == 0 && lastShapeAddedTime == 0.0
    {
      shapes := [];
      bgColorIndex := 0;
      lastShapeAddedTime := 0.0;
    }

    /** The bookkeeping half of `draw()`. The descending loop updates each
        shape in place and splices it out when its counter is no longer
        positive; then, if more than `SpawnInterval` ms have passed since the
        last spawn, a shape built from `d` at (spawnX, spawnY) is appended.
        The clock is read twice: `clockAtCheck` for the test and
        `clockAtReset` for the new timestamp. */
    method Draw(clockAtCheck: real, clockAtReset: real, spawnX: real, spawnY: real,
                shapeType: ShapeType, d: Draws, trig: Trig)
      requires Valid() && DrawsInRange(d, trig)
      modifies this
      ensures Valid()
      ensures bgColorIndex == old(bgColorIndex)
      ensures clockAtCheck - old(lastShapeAddedTime) > SpawnInterval ==>
                && shapes == Prune(old(shapes), trig) + [Spawned(spawnX, spawnY, shapeType, d, trig)]
                && lastShapeAddedTime == clockAtReset
      ensures clockAtCheck - old(lastShapeAddedTime) <= SpawnInterval ==>
                && shapes == Prune(old(shapes), trig)
                && lastShapeAddedTime == old(lastShapeAddedTime)
    {
      UpdateAndPrune(trig);
      PruneHealthy(old(shapes), trig);

      if clockAtCheck - lastShapeAddedTime > SpawnInterval {
        var newShape := NewShape(spawnX, spawnY, shapeType, d, trig);
        SpawnedHealthy(spawnX, spawnY, shapeType, d, trig);
        shapes := shapes + [newShape];
        lastShapeAddedTime := clockAtReset;
      }
    }

    /** The loop of `draw()`: walking the list from the back, each shape is
        updated in place and spliced out when its counter is no longer positive. */
    method UpdateAndPrune(trig: Trig)
      modifies this`shapes
      ensures shapes == Prune(old(shapes), trig)
    {
      ghost var start := shapes;
      var i := |shapes| - 1;
      while i >= 0
        invariant -1 <= i < |start|
        invariant shapes == start[..i + 1] + Prune(start[i + 1..], trig)
        decreases i
      {
        PruneCons(start, i, trig);
        assert shapes[i] == start[i];
        ghost var done := Prune(start[i + 1..], trig);
        var shape := Updated(shapes[i], trig);
        shapes := shapes[i := shape];
        assert shapes == start[..i] + [shape] + done;
        if shapes[i].alpha <= 0 {
          shapes := shapes[..i] + shapes[i + 1..];
          assert shapes == start[..i] + done;
        }
        i := i - 1;
      }
      assert start[..0] == [] && start[0..] == start;
    }

    /** `keyPressed()`: the arrows move the palette index cyclically; any
        other key changes nothing. */
    method KeyPressed(keyCode: int)
      requires Valid()
      modifies this
      ensures Valid()
      ensures bgColorIndex == NextColorIndex(old(bgColorIndex), keyCode)
      ensures shapes == old(shapes) && lastShapeAddedTime == old(lastShapeAddedTime)
    {
      if keyCode == RightArrow {
        bgColorIndex := JsRem(bgColorIndex + 1, |BgColors|);
      } else if keyCode == LeftArrow {
        bgColorIndex := JsRem(bgColorIndex - 1 + |BgColors|, |BgColors|);
      }
    }

    /** `mousePressed()`: appends one shape at the mouse position; nothing
        else changes. */
    method MousePressed(mouseX: real, mouseY: real, shapeType: ShapeType, d: Draws, trig: Trig)
      requires Valid() && DrawsInRange(d, trig)
      modifies this
      ensures Valid()
      ensures shapes == old(shapes) + [Spawned(mouseX, mouseY, shapeType, d, trig)]
      ensures bgColorIndex == old(bgColorIndex) && lastShapeAddedTime == old(lastShapeAddedTime)
    {
      var newShape := NewShape(mouseX, mouseY, shapeType, d, trig);
      SpawnedHealthy(mouseX, mouseY, shapeType, d, trig);
      shapes := shapes + [newShape];
    }
  }
}

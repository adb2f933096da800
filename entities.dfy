/**
 * Tiles ("cubes") and drop slots ("placeholders"): their state as values, the
 * per-tile transitions the pointer handlers and the frame step apply, and the
 * two classes whose fields the sketch updates in place.
 */
module Entities {
  import opened Geometry

  /** A snapshot of every field of a tile. */
  datatype CubeState = CubeState(
    x: real, y: real,
    startX: real, startY: real,
    value: string,
    dragging: bool, falling: bool)

  /** The fields of a slot that never change once it is laid out. */
  datatype Slot = Slot(x: real, y: real, value: string)

  /** A new tile: at rest where it was put, which is also its anchor. */
  function Spawned(x: real, y: real, value: string): CubeState {
    CubeState(x, y, x, y, value, false, false)
  }

  /** `Placeholder.contains`: the tile's centre lies strictly inside the slot's square. */
  predicate Contains(s: Slot, c: CubeState) {
    StrictlyInside(c.x + CubeSize / 2.0, c.y + CubeSize / 2.0, s.x, s.y)
  }

  /** The release test: the slot contains the tile and carries the same label. */
  predicate Takes(s: Slot, c: CubeState) {
    Contains(s, c) && s.value == c.value
  }

  /** The test in `Cube.checkClicked`: the pointer lies strictly inside the tile's square. */
  predicate Hit(c: CubeState, mx: real, my: real) {
    StrictlyInside(mx, my, c.x, c.y)
  }

  /**
   * A slot contains a tile exactly when their squares are less than half a side
   * apart on both axes; in particular a centre exactly on a slot's edge is not
   * contained.
   */
  lemma ContainsIffClose(s: Slot, c: CubeState)
    ensures Contains(s, c) <==> Abs(c.x - s.x) < CubeSize / 2.0 && Abs(c.y - s.y) < CubeSize / 2.0
    ensures c.x + CubeSize / 2.0 == s.x || c.x + CubeSize / 2.0 == s.x + CubeSize ==> !Contains(s, c)
  {
    StrictlyInsideCentred(c.x + CubeSize / 2.0, c.y + CubeSize / 2.0, s.x, s.y);
  }

  /** A press on a tile's edge does not pick it up; its centre always does. */
  lemma HitBoundary(c: CubeState, mx: real, my: real)
    ensures mx == c.x || mx == c.x + CubeSize || my == c.y || my == c.y + CubeSize ==> !Hit(c, mx, my)
    ensures Hit(c, c.x + CubeSize / 2.0, c.y + CubeSize / 2.0)
  {
  }

  /**
   * `checkClicked`: afterwards the tile is dragging exactly when it was or the
   * pointer is strictly inside it; nothing else changes, in particular a falling
   * tile keeps falling.
   */
  function Pressed(c: CubeState, mx: real, my: real): (r: CubeState)
    ensures r.dragging <==> c.dragging || Hit(c, mx, my)
    ensures r == c.(dragging := r.dragging)
  {
    if Hit(c, mx, my) then c.(dragging := true) else c
  }

  /** The body of the `mouseDragged` loop: a dragging tile is centred on the pointer. */
  function Dragged(c: CubeState, mx: real, my: real): CubeState {
    if c.dragging then c.(x := mx - CubeSize / 2.0, y := my - CubeSize / 2.0) else c
  }

  /** `Cube.snapTo`: the tile takes the slot's position. */
  function SnappedTo(c: CubeState, s: Slot): CubeState {
    c.(x := s.x, y := s.y)
  }

  /**
   * A dragged tile stays under the pointer, so dropping it is decided by where
   * the pointer is: a slot contains it iff the pointer is strictly inside the slot.
   */
  lemma DragFollowsPointer(c: CubeState, mx: real, my: real, s: Slot)
    requires c.dragging
    ensures Hit(Dragged(c, mx, my), mx, my)
    ensures Contains(s, Dragged(c, mx, my)) <==> StrictlyInside(mx, my, s.x, s.y)
  {
  }

  /**
   * The inner loop of `mouseReleased` over the slots in order: every slot that
   * takes the tile, as it stands at that moment, snaps it into place. Returns
   * the tile afterwards and whether any slot took it.
   */
  function Sweep(c: CubeState, slots: seq<Slot>): (r: (CubeState, bool))
    ensures r.0 == c.(x := r.0.x, y := r.0.y)
    ensures !r.1 ==> r.0 == c
    ensures r.1 ==> exists k :: 0 <= k < |slots| && r.0.x == slots[k].x && r.0.y == slots[k].y
  {
    if slots == [] then (c, false)
    else
      var (moved, matched) := Sweep(c, slots[..|slots| - 1]);
      var s := slots[|slots| - 1];
      if Takes(s, moved) then (SnappedTo(moved, s), true) else (moved, matched)
  }

  /**
   * The body of the `mouseReleased` loop for one tile: a dragging tile is let
   * go, swept over the slots, and starts falling if no slot took it.
   */
  function Released(c: CubeState, slots: seq<Slot>): (r: CubeState)
    ensures !r.dragging
    ensures r.value == c.value && r.startX == c.startX && r.startY == c.startY
    ensures !c.dragging ==> r == c
  {
    if !c.dragging then c
    else
      var (moved, matched) := Sweep(c.(dragging := false), slots);
      if matched then moved else moved.(falling := true)
  }

  /** No two slots carry the same label. */
  predicate DistinctLabels(slots: seq<Slot>) {
    forall i, j :: 0 <= i < j < |slots| ==> slots[i].value != slots[j].value
  }

  /**
   * With distinct labels only one slot can take a tile, so the sweep's order
   * does not matter: the tile ends on the slot that takes it where it was
   * dropped, or stays where it was.
   */
  lemma {:induction false} SweepDistinct(c: CubeState, slots: seq<Slot>)
    requires DistinctLabels(slots)
    ensures forall k :: 0 <= k < |slots| && Takes(slots[k], c) ==> Sweep(c, slots) == (SnappedTo(c, slots[k]), true)
    ensures (forall k :: 0 <= k < |slots| ==> !Takes(slots[k], c)) ==> Sweep(c, slots) == (c, false)
  {
    if slots != [] {
      var last := |slots| - 1;
      var init := slots[..last];
      assert DistinctLabels(init);
      SweepDistinct(c, init);
      forall k | 0 <= k < |slots| && Takes(slots[k], c)
        ensures Sweep(c, slots) == (SnappedTo(c, slots[k]), true)
      {
        if k < last {
          assert init[k] == slots[k];
          assert slots[last].value != c.value;
        } else {
          forall k' | 0 <= k' < last
            ensures !Takes(init[k'], c)
          {
            assert slots[k'].value != slots[last].value;
          }
        }
      }
      if forall k :: 0 <= k < |slots| ==> !Takes(slots[k], c) {
        forall k' | 0 <= k' < last
          ensures !Takes(init[k'], c)
        {
          assert init[k'] == slots[k'];
        }
      }
    }
  }

  /**
   * What a release does to one dragging tile, when slot labels are distinct:
   * it is no longer dragging; if a slot takes it, it sits exactly on that slot;
   * otherwise it stays put and falls. Its label and anchor never change.
   */
  lemma ReleaseOutcome(c: CubeState, slots: seq<Slot>)
    requires DistinctLabels(slots) && c.dragging
    ensures forall k :: 0 <= k < |slots| && Takes(slots[k], c) ==>
      Released(c, slots) == SnappedTo(c.(dragging := false), slots[k])
    ensures (forall k :: 0 <= k < |slots| ==> !Takes(slots[k], c)) ==>
      Released(c, slots) == c.(dragging := false, falling := true)
  {
    var d := c.(dragging := false);
    SweepDistinct(d, slots);
    forall k | 0 <= k < |slots|
      ensures Takes(slots[k], c) <==> Takes(slots[k], d)
    {
    }
  }

  /**
   * One frame of the falling animation in `draw`: a falling tile moves down by
   * the fall step and is clamped at its anchor, where it stops falling. It never
   * moves sideways, and after the frame it is never below its anchor.
   */
  function Fallen(c: CubeState): (r: CubeState)
    ensures r.x == c.x && r.startX == c.startX && r.startY == c.startY
    ensures r.value == c.value && r.dragging == c.dragging
    ensures c.falling ==> r.y <= r.startY
    ensures !c.falling ==> r == c
  {
    if !c.falling then c
    else if c.y + FallStep > c.startY then c.(y := c.startY, falling := false)
    else c.(y := c.y + FallStep)
  }

  /** The tile after `n` frames. */
  function FallFrames(c: CubeState, n: nat): CubeState
    decreases n
  {
    if n == 0 then c else FallFrames(Fallen(c), n - 1)
  }

  /** A tile that is not falling stays where it is frame after frame. */
  lemma {:induction false} RestingStays(c: CubeState, n: nat)
    requires !c.falling
    ensures FallFrames(c, n) == c
  {
    if n > 0 {
      RestingStays(c, n - 1);
    }
  }

  /** While the anchor is not yet passed, a falling tile moves down by the fall step each frame. */
  lemma {:induction false} FallInFlight(c: CubeState, n: nat)
    requires c.falling && c.y + FallStep * (n as real) <= c.startY
    ensures FallFrames(c, n) == c.(y := c.y + FallStep * (n as real))
    decreases n
  {
    if n > 0 {
      FallInFlight(Fallen(c), n - 1);
    }
  }

  /**
   * The frame in which a falling tile would pass its anchor puts it exactly on
   * the anchor's height and ends the fall; a tile dropped below its anchor
   * rises to it in one frame.
   */
  lemma {:induction false} FallArrives(c: CubeState, n: nat)
    requires c.falling && n >= 1 && c.y + FallStep * (n as real) > c.startY
    ensures FallFrames(c, n) == c.(y := c.startY, falling := false)
    decreases n
  {
    if c.y + FallStep > c.startY {
      RestingStays(Fallen(c), n - 1);
    } else {
      FallArrives(Fallen(c), n - 1);
    }
  }

  /**
   * A tile grabbed while it was falling and dropped on its own slot is snapped
   * there but keeps falling, since neither the press nor the snap clears the
   * flag: eighteen frames later its centre has left the slot, although the
   * slot stays marked.
   */
  lemma DroppedWhileFallingSlidesOff(c: CubeState, slots: seq<Slot>, k: nat)
    requires DistinctLabels(slots) && k < |slots| && Takes(slots[k], c)
    requires c.dragging && c.falling && slots[k].y + FallStep * 18.0 <= c.startY
    ensures Released(c, slots).falling
    ensures Released(c, slots).x == slots[k].x && Released(c, slots).y == slots[k].y
    ensures !Contains(slots[k], FallFrames(Released(c, slots), 18))
  {
    ReleaseOutcome(c, slots);
    FallInFlight(Released(c, slots), 18);
  }

  /** A drop slot; only its `correct` mark changes after it is laid out. */
  class Placeholder {
    const x: real
    const y: real
    const value: string
    var correct: bool

    constructor (x: real, y: real, value: string)
      ensures Cell() == Slot(x, y, value) && !correct
    {
      this.x := x;
      this.y := y;
      this.value := value;
      correct := false;
    }

    function Cell(): Slot {
      Slot(x, y, value)
    }
  }

  /** A draggable tile. */
  class Cube {
    var x: real
    var y: real
    const value: string
    var startX: real
    var startY: real
    var dragging: bool
    var falling: bool

    constructor (x: real, y: real, value: string)
      ensures View() == Spawned(x, y, value)
    {
      this.x := x;
      this.y := y;
      this.value := value;
      startX := x;
      startY := y;
      dragging := false;
      falling := false;
    }

    function View(): CubeState
      reads this
    {
      CubeState(x, y, startX, startY, value, dragging, falling)
    }

    /** Picks the tile up if the pointer is on it (the sound cue is not modelled). */
    method CheckClicked(mx: real, my: real)
      modifies this
      ensures View() == Pressed(old(View()), mx, my)
    {
      if mx > x && mx < x + CubeSize && my > y && my < y + CubeSize {
        dragging := true;
      }
    }

    method SnapTo(p: Placeholder)
      modifies this
      ensures View() == SnappedTo(old(View()), p.Cell())
    {
      x := p.x;
      y := p.y;
    }

    method StartFall()
      modifies this
      ensures View() == old(View()).(falling := true)
    {
      falling := true;
    }
  }
}

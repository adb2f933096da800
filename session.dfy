/**
 * The sketch's global game state and the handlers that change it: board
 * construction, the pointer handlers, the per-frame step, the attempt
 * stopwatch and the grade awarded on completion.
 *
 * The results of p5's `shuffle` and `random` are parameters: `shuffled` is a
 * permutation of the ordered items, `spots` the random tile positions, one per
 * tile, each in the scramble area.
 */
module Session {
  import opened Options
  import opened Items
  import opened Grading
  import opened Geometry
  import opened Entities

  /** The slots `setupGame` lays out for an item set: label `k` at grid cell `k`. */
  function Board(items: ItemSet): seq<Slot> {
    var labels := OrderedItems(items);
    seq(|labels|, k requires 0 <= k < |labels| => Slot(SlotX(k), SlotY(k), labels[k]))
  }

  /**
   * The board has one slot per item, with distinct labels, and no point of the
   * canvas is strictly inside two of its slots.
   */
  lemma BoardShape(items: ItemSet)
    ensures |Board(items)| == |OrderedItems(items)| == (if items == Letters then 26 else 11)
    ensures DistinctLabels(Board(items))
    ensures forall k1, k2, px: real, py: real ::
      0 <= k1 < |Board(items)| && 0 <= k2 < |Board(items)| && k1 != k2
      && StrictlyInside(px, py, Board(items)[k1].x, Board(items)[k1].y)
      ==> !StrictlyInside(px, py, Board(items)[k2].x, Board(items)[k2].y)
  {
    var b := Board(items);
    OrderedItemsDistinct(items);
    forall k1, k2, px: real, py: real |
      0 <= k1 < |b| && 0 <= k2 < |b| && k1 != k2 && StrictlyInside(px, py, b[k1].x, b[k1].y)
      ensures !StrictlyInside(px, py, b[k2].x, b[k2].y)
    {
      SlotsDisjoint(k1, k2, px, py);
    }
  }

  /** The fixed part of each placeholder, in order. */
  function Cells(ps: seq<Placeholder>): seq<Slot> {
    seq(|ps|, k requires 0 <= k < |ps| => ps[k].Cell())
  }

  /** The label of each tile, in order. */
  function Labels(cs: seq<Cube>): seq<string> {
    seq(|cs|, i requires 0 <= i < |cs| => cs[i].value)
  }

  /** `shuffle([...orderedItems])` returns a permutation of the ordered items. */
  predicate Shuffled(shuffled: seq<string>, items: ItemSet) {
    multiset(shuffled) == multiset(OrderedItems(items))
  }

  /** One random position per tile, each where `random` can put a tile. */
  predicate Scattered(spots: seq<(real, real)>, count: nat) {
    |spots| == count && forall i :: 0 <= i < |spots| ==> InScrambleArea(spots[i].0, spots[i].1)
  }

  /** `randomizeCubes` for one tile: moved to a new spot, which is also its new anchor. */
  function Rescattered(c: CubeState, spot: (real, real)): CubeState {
    c.(x := spot.0, y := spot.1, startX := spot.0, startY := spot.1)
  }

  class Game {
    var selected: ItemSet
    var cubes: seq<Cube>
    var placeholders: seq<Placeholder>
    var success: bool
    /** The handle of the last interval started, or none (`timer = null`). */
    var timer: Option<nat>
    /** The intervals the browser is still running. */
    var live: set<nat>
    /** The handle the next `setInterval` returns. */
    var nextHandle: nat
    var elapsedTime: nat
    var grade: nat
    var isAttemptActive: bool

    /**
     * Only the interval `timer` names can still be running, so there is never a
     * second ticker, and every running handle was issued before `nextHandle`.
     */
    ghost predicate TimerValid()
      reads this`timer, this`live, this`nextHandle
    {
      forall h :: h in live ==> timer == Some(h) && h < nextHandle
    }

    /**
     * The slots are the board of the chosen item set, and the tiles carry each
     * of its labels exactly once, with their anchors in the scramble area.
     */
    ghost predicate BoardValid()
      reads this`selected, this`cubes, this`placeholders
    {
      Cells(placeholders) == Board(selected)
      && (forall a, b :: 0 <= a < b < |placeholders| ==> placeholders[a] != placeholders[b])
      && multiset(Labels(cubes)) == multiset(OrderedItems(selected))
      && (forall a, b :: 0 <= a < b < |cubes| ==> cubes[a] != cubes[b])
    }

    /** Every tile's anchor lies in the scramble area. */
    ghost predicate Anchored()
      reads this`cubes, cubes
    {
      forall i :: 0 <= i < |cubes| ==> InScrambleArea(cubes[i].startX, cubes[i].startY)
    }

    ghost predicate Valid()
      reads this
    {
      TimerValid() && BoardValid()
    }

    /** `placeholders.every(ph => ph.correct)`. */
    predicate AllCorrect()
      reads this, placeholders
    {
      forall k :: 0 <= k < |placeholders| ==> placeholders[k].correct
    }

    /** A board just built from `shuffled` and `spots`: nothing placed, every tile at rest at its spot. */
    ghost predicate Dealt(shuffled: seq<string>, spots: seq<(real, real)>)
      reads this`cubes, this`placeholders, cubes, placeholders
    {
      |cubes| == |shuffled| == |spots|
      && (forall i :: 0 <= i < |cubes| ==> cubes[i].View() == Spawned(spots[i].0, spots[i].1, shuffled[i]))
      && (forall k :: 0 <= k < |placeholders| ==> !placeholders[k].correct)
    }

    /** The globals' initial values, then `setup()`, which builds a letters board. */
    constructor (shuffled: seq<string>, spots: seq<(real, real)>)
      requires Shuffled(shuffled, Letters) && Scattered(spots, |shuffled|)
      ensures Valid() && Dealt(shuffled, spots) && Anchored()
      ensures selected == Letters && !success && timer == None && live == {}
      ensures elapsedTime == 0 && grade == 0 && !isAttemptActive
    {
      selected := Letters;
      cubes := [];
      placeholders := [];
      success := false;
      timer := None;
      live := {};
      nextHandle := 1;
      elapsedTime := 0;
      grade := 0;
      isAttemptActive := false;
      new;
      SetupGame(shuffled, spots);
    }

    /**
     * `setupGame`: clears the success flag and rebuilds the board, one slot
     * per ordered item in a 12-per-row grid, and one new tile per shuffled
     * item at its random spot.
     */
    method SetupGame(shuffled: seq<string>, spots: seq<(real, real)>)
      requires TimerValid()
      requires Shuffled(shuffled, selected) && Scattered(spots, |shuffled|)
      modifies this`success, this`placeholders, this`cubes
      ensures Valid() && Dealt(shuffled, spots) && Anchored() && !success
      ensures Cells(placeholders) == Board(selected)
      ensures forall k :: 0 <= k < |placeholders| ==> fresh(placeholders[k])
      ensures forall i :: 0 <= i < |cubes| ==> fresh(cubes[i])
    {
      success := false;
      placeholders := LayOutSlots(selected);
      cubes := DealCubes(shuffled, spots);
      assert Labels(cubes) == shuffled;
    }

    /** Choosing an item set with the letters or numbers button. */
    method SelectItemSet(items: ItemSet, shuffled: seq<string>, spots: seq<(real, real)>)
      requires Valid()
      requires Shuffled(shuffled, items) && Scattered(spots, |shuffled|)
      modifies this`selected, this`success, this`placeholders, this`cubes
      ensures Valid() && Dealt(shuffled, spots) && Anchored() && !success
      ensures selected == items && Cells(placeholders) == Board(items)
    {
      selected := items;
      SetupGame(shuffled, spots);
    }

    /** The back button: clears the success flag and rebuilds the board. */
    method BackPressed(shuffled: seq<string>, spots: seq<(real, real)>)
      requires Valid()
      requires Shuffled(shuffled, selected) && Scattered(spots, |shuffled|)
      modifies this`success, this`placeholders, this`cubes
      ensures Valid() && Dealt(shuffled, spots) && Anchored() && !success
    {
      success := false;
      SetupGame(shuffled, spots);
    }

    /** `resetGame`: stops the ticker, zeroes the stopwatch, ends the attempt and rebuilds the board. */
    method ResetGame(shuffled: seq<string>, spots: seq<(real, real)>)
      requires Valid()
      requires Shuffled(shuffled, selected) && Scattered(spots, |shuffled|)
      modifies this`live, this`timer, this`elapsedTime, this`isAttemptActive, this`success, this`placeholders, this`cubes
      ensures Valid() && Dealt(shuffled, spots) && Anchored() && !success
      ensures timer == None && live == {} && elapsedTime == 0 && !isAttemptActive
    {
      if timer.Some? {
        live := live - {timer.value};
      }
      timer := None;
      elapsedTime := 0;
      isAttemptActive := false;
      SetupGame(shuffled, spots);
    }

    /** `startGame`: a reset, then a new ticker and an active attempt. */
    method StartGame(shuffled: seq<string>, spots: seq<(real, real)>)
      requires Valid()
      requires Shuffled(shuffled, selected) && Scattered(spots, |shuffled|)
      modifies this`nextHandle, this`live, this`timer, this`elapsedTime, this`isAttemptActive, this`success, this`placeholders, this`cubes
      ensures Valid() && Dealt(shuffled, spots) && Anchored() && !success
      ensures timer == Some(old(nextHandle)) && live == {old(nextHandle)}
      ensures elapsedTime == 0 && isAttemptActive
      ensures old(nextHandle) !in old(live)
    {
      ResetGame(shuffled, spots);
      StartTicker();
    }

    /** The part of `startGame` after the reset: a new interval becomes the ticker and the attempt begins. */
    method StartTicker()
      modifies this`nextHandle, this`timer, this`live, this`isAttemptActive
      ensures timer == Some(old(nextHandle)) && live == old(live) + {old(nextHandle)}
      ensures nextHandle == old(nextHandle) + 1 && isAttemptActive
    {
      var h := nextHandle;
      nextHandle := nextHandle + 1;
      timer := Some(h);
      live := live + {h};
      isAttemptActive := true;
    }

    /**
     * The attempt button: resets while a timer handle is held (also after a
     * completion, which stops the ticker but keeps the handle), starts otherwise.
     */
    method AttemptPressed(shuffled: seq<string>, spots: seq<(real, real)>)
      requires Valid()
      requires Shuffled(shuffled, selected) && Scattered(spots, |shuffled|)
      modifies this`nextHandle, this`live, this`timer, this`elapsedTime, this`isAttemptActive, this`success, this`placeholders, this`cubes
      ensures Valid() && Dealt(shuffled, spots) && Anchored() && !success && elapsedTime == 0
      ensures old(timer).Some? ==> timer == None && live == {} && !isAttemptActive
      ensures old(timer).None? ==> timer == Some(old(nextHandle)) && live == {old(nextHandle)} && isAttemptActive
    {
      if timer.Some? {
        ResetGame(shuffled, spots);
      } else {
        StartGame(shuffled, spots);
      }
    }

    /** The browser runs interval `h` once: only a live interval advances the stopwatch. */
    method Tick(h: nat)
      requires Valid()
      modifies this`elapsedTime
      ensures Valid()
      ensures elapsedTime == old(elapsedTime) + (if h in old(live) then 1 else 0)
      ensures h in old(live) ==> old(timer) == Some(h)
    {
      if h in live {
        elapsedTime := elapsedTime + 1;
      }
    }

    /** `calculateGrade`: marks success, stops the ticker (keeping the handle) and grades the time. */
    method CalculateGrade()
      requires Valid()
      modifies this`success, this`live, this`grade
      ensures Valid()
      ensures success && grade == Grade(elapsedTime, selected) && live == {}
    {
      success := true;
      if timer.Some? {
        live := live - {timer.value};
      }
      grade := Grade(elapsedTime, selected);
    }

    /**
     * The state-changing part of `draw`: one frame of every falling tile, then
     * the completion poll. Completion fires when nothing has succeeded yet and
     * every slot is marked, and it sets `success`, so it cannot fire again until
     * the board is rebuilt.
     */
    method FrameStep() returns (completed: bool)
      requires Valid()
      modifies this`success, this`live, this`grade, cubes
      ensures Valid() && (old(Anchored()) ==> Anchored())
      ensures forall i :: 0 <= i < |cubes| ==> cubes[i].View() == Fallen(old(cubes[i].View()))
      ensures completed <==> !old(success) && AllCorrect()
      ensures old(success) ==> !completed
      ensures success == (old(success) || completed)
      ensures grade == if completed then Grade(elapsedTime, selected) else old(grade)
      ensures live == if completed then {} else old(live)
    {
      FallAll(cubes);
      completed := !success && AllCorrect();
      if completed {
        CalculateGrade();
      }
    }

    /** `mousePressed`: while an attempt is active, every tile under the pointer starts dragging. */
    method MousePressed(mx: real, my: real)
      requires Valid()
      modifies cubes
      ensures Valid() && (old(Anchored()) ==> Anchored())
      ensures forall i :: 0 <= i < |cubes| ==>
        cubes[i].View() == if isAttemptActive then Pressed(old(cubes[i].View()), mx, my) else old(cubes[i].View())
    {
      if !isAttemptActive {
        return;
      }
      var i := 0;
      while i < |cubes|
        invariant 0 <= i <= |cubes|
        invariant forall j :: 0 <= j < i ==> cubes[j].View() == Pressed(old(cubes[j].View()), mx, my)
        invariant forall j :: i <= j < |cubes| ==> cubes[j].View() == old(cubes[j].View())
      {
        cubes[i].CheckClicked(mx, my);
        i := i + 1;
      }
    }

    /** `mouseDragged`: while an attempt is active, every dragging tile is centred on the pointer. */
    method MouseDragged(mx: real, my: real)
      requires Valid()
      modifies cubes
      ensures Valid() && (old(Anchored()) ==> Anchored())
      ensures forall i :: 0 <= i < |cubes| ==>
        cubes[i].View() == if isAttemptActive then Dragged(old(cubes[i].View()), mx, my) else old(cubes[i].View())
    {
      if !isAttemptActive {
        return;
      }
      var i := 0;
      while i < |cubes|
        invariant 0 <= i <= |cubes|
        invariant forall j :: 0 <= j < i ==> cubes[j].View() == Dragged(old(cubes[j].View()), mx, my)
        invariant forall j :: i <= j < |cubes| ==> cubes[j].View() == old(cubes[j].View())
      {
        var cube := cubes[i];
        if cube.dragging {
          cube.x := mx - CubeSize / 2.0;
          cube.y := my - CubeSize / 2.0;
        }
        i := i + 1;
      }
    }

    /**
     * `mouseReleased`: while an attempt is active, every dragging tile is let
     * go and swept over the slots; a slot that takes it is marked correct. No
     * tile is left dragging and no mark is ever cleared.
     */
    method MouseReleased()
      requires Valid()
      modifies cubes, placeholders
      ensures Valid() && (old(Anchored()) ==> Anchored())
      ensures forall i :: 0 <= i < |cubes| ==>
        cubes[i].View() == if isAttemptActive then Released(old(cubes[i].View()), Cells(placeholders)) else old(cubes[i].View())
      ensures forall k :: 0 <= k < |placeholders| ==>
        placeholders[k].correct == (old(placeholders[k].correct) ||
          (isAttemptActive && DroppedOn(Cells(placeholders)[k], old(Views(cubes)), |cubes|)))
      ensures isAttemptActive ==> forall i :: 0 <= i < |cubes| ==> !cubes[i].dragging
    {
      if !isAttemptActive {
        return;
      }
      assert DistinctLabels(Cells(placeholders)) by {
        BoardShape(selected);
      }
      ReleaseAll(cubes, placeholders, Cells(placeholders));
    }

    /** `randomizeCubes`: every tile gets a new random spot, which is also its new anchor. */
    method RandomizeCubes(spots: seq<(real, real)>)
      requires Valid() && Scattered(spots, |cubes|)
      modifies cubes
      ensures Valid() && Anchored()
      ensures forall i :: 0 <= i < |cubes| ==> cubes[i].View() == Rescattered(old(cubes[i].View()), spots[i])
    {
      var i := 0;
      while i < |cubes|
        invariant 0 <= i <= |cubes|
        invariant forall j :: 0 <= j < i ==> cubes[j].View() == Rescattered(old(cubes[j].View()), spots[j])
        invariant forall j :: i <= j < |cubes| ==> cubes[j].View() == old(cubes[j].View())
      {
        var cube := cubes[i];
        cube.x := spots[i].0;
        cube.y := spots[i].1;
        cube.startX := cube.x;
        cube.startY := cube.y;
        i := i + 1;
      }
    }

    /** The randomize button: does nothing unless an attempt is active. */
    method RandomizePressed(spots: seq<(real, real)>)
      requires Valid()
      requires isAttemptActive ==> Scattered(spots, |cubes|)
      modifies cubes
      ensures Valid()
      ensures forall i :: 0 <= i < |cubes| ==>
        cubes[i].View() == if isAttemptActive then Rescattered(old(cubes[i].View()), spots[i]) else old(cubes[i].View())
    {
      if isAttemptActive {
        RandomizeCubes(spots);
      }
    }
  }

  /** The current state of each tile, in order. */
  ghost function Views(cs: seq<Cube>): (vs: seq<CubeState>)
    reads set c | c in cs
    ensures |vs| == |cs| && forall i :: 0 <= i < |cs| ==> vs[i] == cs[i].View()
  {
    seq(|cs|, i requires 0 <= i < |cs| reads set c | c in cs => cs[i].View())
  }

  /** One of the first `n` tiles was being dragged and was dropped where the slot takes it. */
  ghost predicate DroppedOn(cell: Slot, views: seq<CubeState>, n: nat) {
    exists j :: 0 <= j < n && j < |views| && views[j].dragging && Takes(cell, views[j])
  }

  lemma DroppedOnStep(cell: Slot, views: seq<CubeState>, n: nat)
    requires n < |views|
    ensures DroppedOn(cell, views, n + 1) == (DroppedOn(cell, views, n) || (views[n].dragging && Takes(cell, views[n])))
  {
    if DroppedOn(cell, views, n + 1) && !(views[n].dragging && Takes(cell, views[n])) {
      var j :| 0 <= j < n + 1 && j < |views| && views[j].dragging && Takes(cell, views[j]);
      assert j < n;
    }
  }

  /**
   * The nested loops of `setupGame` that lay out the slots: `ceil(n / 12)` rows
   * of 12 cells, a slot in each cell whose index is below the item count.
   */
  method LayOutSlots(items: ItemSet) returns (ps: seq<Placeholder>)
    ensures Cells(ps) == Board(items)
    ensures forall k :: 0 <= k < |ps| ==> fresh(ps[k]) && !ps[k].correct
    ensures forall a, b :: 0 <= a < b < |ps| ==> ps[a] != ps[b]
  {
    var n := |OrderedItems(items)|;
    var rows := (n + RowLimit - 1) / RowLimit;
    ps := [];
    var i := 0;
    while i < rows
      invariant 0 <= i <= rows
      invariant |ps| == if i * RowLimit < n then i * RowLimit else n
      invariant forall k :: 0 <= k < |ps| ==> fresh(ps[k]) && !ps[k].correct && ps[k].Cell() == Board(items)[k]
      invariant forall a, b :: 0 <= a < b < |ps| ==> ps[a] != ps[b]
    {
      ps := LayOutRow(items, i, ps);
      i := i + 1;
    }
    assert Cells(ps) == Board(items);
  }

  /** The inner loop of the layout: the cells of one grid row, up to the item count. */
  method LayOutRow(items: ItemSet, row: nat, ps0: seq<Placeholder>) returns (ps: seq<Placeholder>)
    requires |ps0| == row * RowLimit < |OrderedItems(items)|
    requires forall a, b :: 0 <= a < b < |ps0| ==> ps0[a] != ps0[b]
    ensures |ps| == if (row + 1) * RowLimit < |OrderedItems(items)| then (row + 1) * RowLimit else |OrderedItems(items)|
    ensures ps[..|ps0|] == ps0
    ensures forall k :: |ps0| <= k < |ps| ==> fresh(ps[k]) && !ps[k].correct && ps[k].Cell() == Board(items)[k]
    ensures forall a, b :: 0 <= a < b < |ps| ==> ps[a] != ps[b]
  {
    var ordered := OrderedItems(items);
    ps := ps0;
    var j := 0;
    while j < RowLimit
      invariant 0 <= j <= RowLimit
      invariant |ps| == if row * RowLimit + j < |ordered| then row * RowLimit + j else |ordered|
      invariant ps[..|ps0|] == ps0
      invariant forall k :: |ps0| <= k < |ps| ==> fresh(ps[k]) && !ps[k].correct && ps[k].Cell() == Board(items)[k]
      invariant forall a, b :: 0 <= a < b < |ps| ==> ps[a] != ps[b]
    {
      var index := row * RowLimit + j;
      if index < |ordered| {
        SlotAtCell(row, j);
        var p := new Placeholder(GridOrigin + (j as real) * (CubeSize + Gutter), GridOrigin + (row as real) * (CubeSize + Gutter), ordered[index]);
        ps := ps + [p];
      }
      j := j + 1;
    }
  }

  /** The loop of `setupGame` that makes one new tile per shuffled item, at its random spot. */
  method DealCubes(shuffled: seq<string>, spots: seq<(real, real)>) returns (cs: seq<Cube>)
    requires |spots| == |shuffled|
    ensures |cs| == |shuffled|
    ensures forall i :: 0 <= i < |cs| ==> fresh(cs[i]) && cs[i].View() == Spawned(spots[i].0, spots[i].1, shuffled[i])
    ensures forall a, b :: 0 <= a < b < |cs| ==> cs[a] != cs[b]
  {
    cs := [];
    var i := 0;
    while i < |shuffled|
      invariant 0 <= i <= |shuffled|
      invariant |cs| == i
      invariant forall c :: 0 <= c < i ==> fresh(cs[c]) && cs[c].View() == Spawned(spots[c].0, spots[c].1, shuffled[c])
      invariant forall a, b :: 0 <= a < b < |cs| ==> cs[a] != cs[b]
    {
      var c := new Cube(spots[i].0, spots[i].1, shuffled[i]);
      cs := cs + [c];
      i := i + 1;
    }
  }

  /** The loop of `draw` that moves every falling tile one frame further. */
  method FallAll(cubes: seq<Cube>)
    requires forall a, b :: 0 <= a < b < |cubes| ==> cubes[a] != cubes[b]
    modifies cubes
    ensures forall i :: 0 <= i < |cubes| ==> cubes[i].View() == Fallen(old(cubes[i].View()))
  {
    var i := 0;
    while i < |cubes|
      invariant 0 <= i <= |cubes|
      invariant forall j :: 0 <= j < i ==> cubes[j].View() == Fallen(old(cubes[j].View()))
      invariant forall j :: i <= j < |cubes| ==> cubes[j].View() == old(cubes[j].View())
    {
      var cube := cubes[i];
      if cube.falling {
        cube.y := cube.y + FallStep;
        if cube.y > cube.startY {
          cube.y := cube.startY;
          cube.falling := false;
        }
      }
      i := i + 1;
    }
  }

  /**
   * The loop of `mouseReleased` over the tiles: each dragging tile in turn is
   * released over the slots. A slot ends up marked when it already was or
   * when some tile was dropped on it.
   */
  method ReleaseAll(cubes: seq<Cube>, placeholders: seq<Placeholder>, ghost cells: seq<Slot>)
    requires cells == Cells(placeholders) && DistinctLabels(cells)
    requires forall a, b :: 0 <= a < b < |placeholders| ==> placeholders[a] != placeholders[b]
    requires forall a, b :: 0 <= a < b < |cubes| ==> cubes[a] != cubes[b]
    modifies cubes, placeholders
    ensures forall i :: 0 <= i < |cubes| ==> cubes[i].View() == Released(old(cubes[i].View()), cells)
    ensures forall k :: 0 <= k < |placeholders| ==>
      placeholders[k].correct == (old(placeholders[k].correct) || DroppedOn(cells[k], old(Views(cubes)), |cubes|))
  {
    ghost var before := Views(cubes);
    ghost var after := seq(|before|, j requires 0 <= j < |before| => Released(before[j], cells));
    var i := 0;
    while i < |cubes|
      invariant 0 <= i <= |cubes|
      invariant forall j :: 0 <= j < |cubes| ==> cubes[j].View() == if j < i then after[j] else before[j]
      invariant forall k :: 0 <= k < |placeholders| ==>
        placeholders[k].correct == (old(placeholders[k].correct) || DroppedOn(cells[k], before, i))
    {
      var cube := cubes[i];
      if cube.dragging {
        ReleaseCube(cube, placeholders, cells);
      }
      forall k | 0 <= k < |placeholders|
        ensures DroppedOn(cells[k], before, i + 1) == (DroppedOn(cells[k], before, i) || (before[i].dragging && Takes(cells[k], before[i])))
      {
        DroppedOnStep(cells[k], before, i);
      }
      i := i + 1;
    }
  }

  /**
   * The body of the `mouseReleased` loop for one dragging tile: it is let go,
   * every slot in order that takes it snaps it and is marked correct, and it
   * starts falling if none did. With distinct labels a slot is marked exactly
   * when it takes the tile where it was dropped.
   */
  method ReleaseCube(cube: Cube, placeholders: seq<Placeholder>, ghost cells: seq<Slot>)
    requires cube.dragging
    requires cells == Cells(placeholders) && DistinctLabels(cells)
    requires forall a, b :: 0 <= a < b < |placeholders| ==> placeholders[a] != placeholders[b]
    modifies cube, placeholders
    ensures cube.View() == Released(old(cube.View()), cells)
    ensures forall m :: 0 <= m < |placeholders| ==>
      placeholders[m].correct == (old(placeholders[m].correct) || Takes(cells[m], old(cube.View())))
  {
    cube.dragging := false;
    var matched, hit := OfferToSlots(cube, placeholders, cells);
    ReleaseOutcome(old(cube.View()), cells);
    if !matched {
      cube.StartFall();
    }
  }

  /**
   * The inner loop of `mouseReleased`: the tile is offered to every slot in
   * order. With distinct labels at most one slot takes it; that slot snaps it
   * into place and is marked correct.
   */
  method OfferToSlots(cube: Cube, placeholders: seq<Placeholder>, ghost cells: seq<Slot>) returns (matched: bool, ghost hit: nat)
    requires cells == Cells(placeholders) && DistinctLabels(cells)
    requires forall a, b :: 0 <= a < b < |placeholders| ==> placeholders[a] != placeholders[b]
    modifies cube, placeholders
    ensures matched ==> hit < |cells| && Takes(cells[hit], old(cube.View())) && cube.View() == SnappedTo(old(cube.View()), cells[hit])
    ensures !matched ==> cube.View() == old(cube.View()) && forall m :: 0 <= m < |cells| ==> !Takes(cells[m], old(cube.View()))
    ensures forall m :: 0 <= m < |placeholders| ==>
      placeholders[m].correct == (old(placeholders[m].correct) || Takes(cells[m], old(cube.View())))
  {
    matched := false;
    ghost var dropped := cube.View();
    hit := 0;
    var k := 0;
    while k < |placeholders|
      invariant 0 <= k <= |placeholders|
      invariant matched ==> hit < k && Takes(cells[hit], dropped)
      invariant !matched ==> forall m :: 0 <= m < k ==> !Takes(cells[m], dropped)
      invariant cube.View() == if matched then SnappedTo(dropped, cells[hit]) else dropped
      invariant forall m :: 0 <= m < k ==> placeholders[m].correct == (old(placeholders[m].correct) || Takes(cells[m], dropped))
      invariant forall m :: k <= m < |placeholders| ==> placeholders[m].correct == old(placeholders[m].correct)
    {
      assert placeholders[k].Cell() == cells[k];
      var took := OfferSlot(cube, placeholders[k]);
      if took {
        hit := k;
      }
      matched := matched || took;
      k := k + 1;
    }
  }

  /**
   * One step of the inner `mouseReleased` loop: a slot that contains the tile
   * and carries its label snaps the tile onto itself and is marked correct.
   */
  method OfferSlot(cube: Cube, p: Placeholder) returns (took: bool)
    modifies cube, p
    ensures took == Takes(p.Cell(), old(cube.View()))
    ensures cube.View() == if took then SnappedTo(old(cube.View()), p.Cell()) else old(cube.View())
    ensures p.correct == (old(p.correct) || took)
  {
    took := Contains(p.Cell(), cube.View()) && p.value == cube.value;
    if took {
      cube.SnapTo(p);
      p.correct := true;
    }
  }

  /** There is at most one running ticker, and none once the timer handle is dropped. */
  lemma SingleTicker(g: Game)
    requires g.TimerValid()
    ensures |g.live| <= 1
    ensures g.timer == None ==> g.live == {}
  {
    if g.timer.Some? {
      if g.timer.value in g.live {
        assert g.live == {g.timer.value};
      } else {
        assert g.live == {};
      }
    } else {
      assert g.live == {};
    }
  }

  /**
   * Every slot of the board lies at least eighteen falling frames above any
   * resting height `random` can give a tile, so a tile snapped onto a slot
   * while still falling always slides off it.
   */
  lemma SlotsAboveScrambleArea(items: ItemSet, k: nat, x: real, y: real)
    requires k < |Board(items)| && InScrambleArea(x, y)
    ensures Board(items)[k].y + FallStep * 18.0 <= y
  {
    assert Board(items)[k].y == SlotY(k);
    assert k / RowLimit <= 2;
  }

  /** On a valid board every slot's label is carried by exactly one tile, and there are as many tiles as slots. */
  lemma OneTilePerSlot(g: Game)
    requires g.BoardValid()
    ensures |g.cubes| == |g.placeholders|
    ensures forall k :: 0 <= k < |g.placeholders| ==> multiset(Labels(g.cubes))[g.placeholders[k].value] == 1
  {
    ShuffleCoversEachOnce(g.selected, Labels(g.cubes));
    BoardShape(g.selected);
    forall k | 0 <= k < |g.placeholders|
      ensures multiset(Labels(g.cubes))[g.placeholders[k].value] == 1
    {
      assert Cells(g.placeholders)[k] == Board(g.selected)[k];
    }
  }
}

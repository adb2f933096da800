# Letter and number sorting game: a verified model

`sketch.js` is a p5.js sketch for young learners. A board of drop slots
("placeholders") shows either the letters A to Z or the numbers 0 to 10 in
their canonical order. The same labels appear on draggable tiles ("cubes"),
scattered in a random order in the lower half of the canvas. During a timed
attempt the learner drags each tile onto the slot with its label. A tile
that is dropped anywhere else falls back to its resting height. A slot is
marked once its tile has been dropped on it, and the mark is never cleared.
When every slot has had its tile dropped on it, the stopwatch stops and a
grade is awarded according to the time taken.

This project models the game engine under the drawing, audio and DOM
calls. It covers:

- the grading step tables;
- the `mm:ss` stopwatch text;
- board construction in `setupGame`;
- the strict square tests in `Placeholder.contains` and `Cube.checkClicked`;
- the three pointer handlers;
- the falling step and the completion poll of `draw`;
- `randomizeCubes`;
- the attempt lifecycle (`startGame`, `resetGame`, the attempt, back,
  randomize and item-set buttons, and the once-per-second tick).

Modules, leaves first:

- `Options`: an option type.
- `Numerals`: `toString` and `padStart(2, '0')` on non-negative integers, and
  reading decimal text back.
- `Stopwatch`: the `updateStopwatch` text, and a parser for it.
- `Items`: the two item sets and their ordered labels.
- `Grading`: the grade as the sketch's chain of comparisons, and the same
  grade as a lookup in a band table.
- `Geometry`: canvas constants, the strict square test and the slot grid.
- `Entities`:
  - the value snapshots `CubeState` and `Slot`;
  - the per-tile transitions of the handlers and of the frame step, as pure
    functions;
  - the classes `Placeholder` and `Cube`, whose fields the sketch updates in
    place.
- `Session`: the class `Game`, which holds the sketch's globals as fields and
  its handlers as methods. The loops of the handlers are module-level
  methods over the tile and slot sequences.

How the model represents the sketch:

- Coordinates are exact `real`s.
- The results of p5's `shuffle` and `random` are parameters. `shuffled`
  must be a permutation of the ordered items. `spots` gives one position
  per tile inside the half-open ranges `random` draws from.
- `setInterval` and `clearInterval` are modelled as integer handles. A set
  `live` holds the intervals the browser is still running, and `Tick(h)`
  is one firing of interval `h`.

On these points the sketch does something a reader might not expect; the
model follows `sketch.js`:

- Completion clears the interval but keeps the `timer` handle. The next
  press of the attempt button therefore runs `resetGame` and leaves the game
  idle; it does not start a new attempt. See `Session.Game.AttemptPressed`.
- A press sets every tile under the pointer dragging, not only the first
  one found.
- `dragging` and `falling` are not exclusive. Pressing a falling tile makes
  it dragging while it keeps falling. If it is then dropped on its own
  slot, it is snapped there and marked, but it keeps falling and slides off
  the slot in later frames, while the slot stays marked. See
  `Entities.DroppedWhileFallingSlidesOff`.
- Completion tests the slots' marks, not where the tiles are. A tile
  dragged off its slot again, or one that slid off it, leaves the slot
  marked.
- The shuffled order is only required to be a permutation. The sketch does
  nothing to avoid the identity order.
- The numbers set has eleven items, "0" to "10".

## Model

| member | source | states |
|---|---|---|
| Numerals.NatToString | sketch.js:118-119 | The decimal text of a number has at least one character, is a single character exactly below ten, and never starts with a zero when longer. |
| Numerals.NatToStringValue | sketch.js:118-119 | Reading the decimal text of `n` back as digits gives `n`. |
| Numerals.NatToStringInjective | sketch.js:131 | Different numbers have different texts, so the number labels "0".."10" are distinct. |
| Numerals.NatToStringShort | sketch.js:119 | A number below 100, such as the seconds field, is written with at most two digits. |
| Numerals.PadStart2 | sketch.js:118-119 | `padStart(2, '0')` yields two characters for a shorter text and leaves a longer one as it is. |
| Numerals.PadStart2Shape | sketch.js:118-119 | The padded text ends with the original text, and everything in front of it is '0'. |
| Numerals.PadStart2Value | sketch.js:118-119 | Zero padding never changes the number a text reads as. |
| Stopwatch.Padded | sketch.js:118-119 | A stopwatch field is at least two characters long. |
| Stopwatch.StopwatchText | sketch.js:117-121 | The stopwatch text has a colon with exactly two characters after it and at least two before it. |
| Stopwatch.PaddedValue | sketch.js:118-119 | A padded field reads back as its number, and is exactly two characters long below 100. |
| Stopwatch.StopwatchTextWidth | sketch.js:117-121 | Below 100 minutes the text is exactly five characters, `mm:ss`. |
| Stopwatch.SplitFields | sketch.js:120 | A text built as minutes, colon and two characters splits back into exactly those fields. |
| Stopwatch.ParseJoined | sketch.js:120 | Minute digits, a colon and two second digits below 60 read back as minutes * 60 + seconds. |
| Stopwatch.StopwatchRoundTrip | sketch.js:117-121 | Parsing the stopwatch text of `t` seconds gives back `t`: minutes are `floor(t / 60)`, seconds `t % 60`, and the text loses nothing. |
| Stopwatch.StopwatchTextInjective | sketch.js:117-121 | Two different elapsed times never show the same stopwatch text. |
| Items.OrderedItems | sketch.js:129-131 | The ordered list has 26 labels for letters and 11 for numbers. |
| Items.OrderedItemsAscending | sketch.js:129-131 | Every letter label is a single character from 'A' to 'Z', strictly above the one before it. Number label `k` reads back as the number `k`. |
| Items.OrderedItemsDistinct | sketch.js:129-131 | No label occurs twice in either ordered list. |
| Items.DistinctCount | sketch.js:133 | In a list without repeats, every element occurs exactly once. |
| Items.ShuffleCoversEachOnce | sketch.js:133 | Any permutation `shuffle` returns has the same length, contains each ordered item exactly once, and contains nothing else. |
| Grading.Grade | sketch.js:219-238 | The grade always lies between 10 and 100. |
| Grading.TablesWellFormed | sketch.js:219-238 | Both band tables have strictly ascending time bounds and non-increasing grades, none below the floor of 10. |
| Grading.LookupAtMostRow | sketch.js:219-238 | A lookup starting at a row of a well-formed table never exceeds that row's grade. |
| Grading.LookupFromMonotone | sketch.js:219-238 | In a well-formed table, a later time never looks up a higher grade. |
| Grading.GradeMatchesTable | sketch.js:219-238 | For every time and item set, the comparison chain equals the lookup in the published band table: numbers 20/60/90/120/180/240/300/360 give 100/80/70/60/50/40/30/20, letters 30/60/.../360 give 100/90/80/70/60/50/40/30, and later times give 10. Bounds are inclusive. |
| Grading.GradeNonIncreasing | sketch.js:219-238 | For each item set, finishing later never earns a higher grade. |
| Grading.FullMarksBoundary | sketch.js:220-230 | Full marks exactly up to 30 s for letters and 20 s for numbers, so 31 s and 21 s lose them. |
| Grading.FloorBoundary | sketch.js:227-238 | The grade is 10 exactly when more than 360 s have passed, for both item sets. |
| Geometry.StrictlyInsideCentred | sketch.js:276-283 | The strict square test is the same as being less than half a side from the square's centre on both axes. |
| Geometry.SlotAtCell | sketch.js:136-140 | The slot at row `i` and column `j` (j < 12) is slot `12i + j`, at (50 + 60j, 50 + 60i). |
| Geometry.SlotsDisjoint | sketch.js:138-140 | No point is strictly inside two different slots of the grid, because neighbouring slots are 10 apart. |
| Entities.ContainsIffClose | sketch.js:276-283 | A slot contains a tile exactly when the tile's centre is strictly inside the slot square. A centre on a slot edge is not contained. |
| Entities.HitBoundary | sketch.js:305-311 | A press on a tile's edge does not hit it; a press on its centre does. |
| Entities.Pressed | sketch.js:305-312 | After a press a tile is dragging exactly when it was before or the pointer is strictly inside it. No other field changes, so a falling tile keeps falling. |
| Entities.DragFollowsPointer | sketch.js:186-188 | A dragged tile is centred under the pointer, and a slot contains it exactly when the pointer is strictly inside that slot. |
| Entities.Sweep | sketch.js:200-206 | The slot sweep moves the tile only; an unmatched sweep leaves it unchanged, and a matched one leaves it on some slot's position. |
| Entities.Released | sketch.js:196-210 | A released tile is no longer dragging and keeps its label and anchor. A tile that was not dragging is untouched. |
| Entities.SweepDistinct | sketch.js:200-206 | With distinct slot labels, the sweep's order does not matter. The tile ends on the slot that takes it where it was dropped, or stays put if no slot does. |
| Entities.ReleaseOutcome | sketch.js:196-210 | A dragging tile that some slot takes ends on exactly that slot's position and keeps its falling flag. A tile no slot takes stays where it was dropped and falls. |
| Entities.Fallen | sketch.js:161-166 | One frame never moves a tile sideways or changes its label, anchor or dragging flag. A falling tile ends at or above its anchor height, and a tile that is not falling is untouched. |
| Entities.RestingStays | sketch.js:161 | A tile that is not falling stays where it is for any number of frames. |
| Entities.FallInFlight | sketch.js:161-162 | While the anchor is not passed, `n` frames move a falling tile down by exactly 1.5 * n. |
| Entities.FallArrives | sketch.js:163-166 | The frame that would pass the anchor puts the tile exactly at the anchor height and ends the fall. |
| Entities.DroppedWhileFallingSlidesOff | sketch.js:161-162 | A tile pressed while falling and dropped on its own slot is snapped onto it but is still falling; eighteen frames later its centre is no longer inside the slot. |
| Entities.Placeholder.constructor | sketch.js:260-265 | A new slot has the given position and label and is not marked correct. |
| Entities.Cube.constructor | sketch.js:287-295 | A new tile is at rest at its position, which is also its anchor, neither dragging nor falling. |
| Entities.Cube.CheckClicked | sketch.js:305-317 | The tile's new state is `Pressed` of its old state for the pointer. |
| Entities.Cube.SnapTo | sketch.js:319-322 | The tile takes the slot's position and nothing else changes. |
| Entities.Cube.StartFall | sketch.js:324-326 | The tile starts falling and nothing else changes. |
| Session.BoardShape | sketch.js:135-143 | The board has 26 or 11 slots, one per ordered item, with distinct labels, and no point lies strictly inside two slots. |
| Session.LayOutSlots | sketch.js:135-143 | The nested loops build exactly the board: slot `k` at grid cell `k` with label `k`. All slots are new, distinct and unmarked. |
| Session.LayOutRow | sketch.js:137-142 | One row of the inner loop appends the cells of that row, up to the item count, and keeps the slots already built. |
| Session.DealCubes | sketch.js:145-149 | One new, distinct tile per shuffled item, at rest at its random spot. |
| Session.FallAll | sketch.js:159-168 | Every tile advances by exactly one frame of `Fallen`. |
| Session.ReleaseAll | sketch.js:195-212 | Every tile ends as `Released` of its old state. A slot ends marked exactly when it was marked already or some tile that was dragging was dropped where the slot takes it. |
| Session.ReleaseCube | sketch.js:196-211 | A dragging tile ends as `Released` over the slots. Exactly the slots that take it where it was dropped become marked, and no mark is cleared. |
| Session.OfferToSlots | sketch.js:200-206 | With distinct labels, at most one slot takes the tile; the tile ends on that slot and only slots that take it become marked. Otherwise the tile is unchanged and no slot takes it. |
| Session.OfferSlot | sketch.js:201-205 | A slot takes the tile exactly when it contains the tile and has the same label. It then snaps the tile and is marked; otherwise nothing changes. |
| Session.SingleTicker | sketch.js:97-111 | At most one interval is ever running, and none once the timer handle is cleared. |
| Session.SlotsAboveScrambleArea | sketch.js:140 | Every board slot lies at least 27 units (eighteen falling frames) above any resting height a tile can be given, so the slide-off above always happens in the game. |
| Session.OneTilePerSlot | sketch.js:129-149 | On a valid board there are as many tiles as slots, and each slot's label is carried by exactly one tile. |
| Session.Game.constructor | sketch.js:27-32 | The sketch starts with letters, no attempt, no timer, zero time and grade, and a freshly dealt valid board. |
| Session.Game.SetupGame | sketch.js:123-150 | Clears success and builds a new board: the slots are exactly the board of the chosen item set and unmarked, the tiles are new and rest at their spots with the shuffled labels, and the invariants hold. |
| Session.Game.SelectItemSet | sketch.js:34-42 | Switches the item set and rebuilds the board for it. |
| Session.Game.BackPressed | sketch.js:90-94 | Clears success and rebuilds the board for the same item set; timer and attempt are untouched. |
| Session.Game.ResetGame | sketch.js:107-115 | Stops the ticker, leaves `timer` null, `elapsedTime` 0 and the attempt inactive, and rebuilds the board. |
| Session.Game.StartGame | sketch.js:97-105 | A reset, then exactly one running interval, which the handle names and which was not running before, and an active attempt with zero time. |
| Session.Game.StartTicker | sketch.js:99-104 | Records the next interval handle as the timer, adds it to the running intervals, and marks the attempt active. |
| Session.Game.AttemptPressed | sketch.js:82-88 | With a handle held, even after a completion, the press resets to idle. Without one it starts an attempt. |
| Session.Game.Tick | sketch.js:99-102 | Only a running interval advances the stopwatch, by one second, and it is always the current timer's. |
| Session.Game.CalculateGrade | sketch.js:215-239 | Marks success, stops every running interval but keeps the handle, and sets the grade to `Grade(elapsedTime, itemSet)`. |
| Session.Game.FrameStep | sketch.js:159-173 | Every tile advances one falling frame. Completion fires exactly when nothing had succeeded yet and every slot is marked; it sets success, grades the time and stops the ticker, so it cannot fire again until the board is rebuilt. |
| Session.Game.MousePressed | sketch.js:176-181 | While active, every tile becomes `Pressed` for the pointer, with no first-match break; while inactive nothing changes. |
| Session.Game.MouseDragged | sketch.js:183-191 | While active, every dragging tile is centred on the pointer and other tiles are untouched; while inactive nothing changes. |
| Session.Game.MouseReleased | sketch.js:193-213 | While active, every tile ends as `Released`, no tile is left dragging, and a slot becomes marked exactly when a dragged tile was dropped where it takes it. No mark is ever cleared. While inactive nothing changes. |
| Session.Game.RandomizeCubes | sketch.js:250-257 | Every tile moves to its new spot, which becomes its new anchor too; labels and flags are kept, and every anchor is in the scramble area. |
| Session.Game.RandomizePressed | sketch.js:44-48 | Randomizes only while an attempt is active; otherwise nothing changes. |

## Left out

- Drawing: the `show` methods, `background`, `fill`, `rect`, `text`, `createCanvas` and `noStroke` only present the state.
- Audio: `preload`, `loadSound` and the `.play()` cues in `checkClicked` and on completion are foreign library calls. The model treats them as no-ops.
- DOM: the button wiring, the grade and congratulations panels, the tooltip and its positioning are UI plumbing. `Stopwatch.StopwatchText` is the text `updateStopwatch` writes; writing it into the page is not modelled.
- Session.Game.Tick: the browser's one-second scheduling is not modelled. Any interval in `live` may fire at any time.
- Randomness: `shuffle` and `random` are parameters. The model assumes only that `shuffle` returns a permutation and that `random` returns a value in its half-open range.
- Floating point: positions and the 1.5 fall step are exact reals, not IEEE doubles, so rounding in the browser is not modelled.
- Pointer position: p5's `mouseX`/`mouseY` globals are parameters of the pointer handlers.
- Session.Game.CalculateGrade: the sketch leaves the grade unchanged if the item set is neither letters nor numbers. The model has only those two item sets, so that branch does not arise.

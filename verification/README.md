# screen-selections: box selection, modelled in Dafny

This project models the box-selection machinery of the `screen-selections` JavaScript
library and its sprite demo. The parts modelled are:

- **`BoxRegionSelector`** (`src/screen_selections.js`). It is a drag machine that is
  polled once per frame by
  `update(mouse_coord, mouse_pressed, key_shift?, key_alt?, key_ctrl?)`.
  - A press edge starts a drag and emits a `drags` event.
  - Movement while dragging emits `dragging` events.
  - A release emits a `dragged` event.
  - Each event calls the listeners registered for its kind, in registration order.
  - Listeners are kept in three lists, managed by `add_event_callback` and
    `remove_event_callback`, and compared by identity.
- **`point_within_box`**: the inclusive test of a point against a box given by two
  opposing corners.
- **The selection list of the sprite demo's `xBoxRegionSpriteSelector`**
  (`src/demo_sprites/sketch.js`):
  - adding and removing single sprites and groups;
  - clearing all sprites, or only the removed ones;
  - the debug colouring of selected sprites;
  - the callback that applies a finished drag to the sprite pool.

`tests/sketch.js` holds the same code as `BoxRegionSelector` (lines 66-312) and
`point_within_box` (lines 543-562); only some doc comments differ. The same model serves both copies. Its line ranges
map as follows:

| part | `src/screen_selections.js` | `tests/sketch.js` |
|---|---|---|
| `add_event_callback` | 82-98 | 106-122 |
| `remove_event_callback` | 106-134 | 129-157 |
| `update` | 145-259 | 167-281 |
| `#add_callback` | 268-275 | 289-296 |
| `#remove_callback` | 284-291 | 304-311 |
| `point_within_box` | 395-414 | 543-562 |

The demo's private `#point_within_box` (`src/demo_sprites/sketch.js:331-350`) is a
third copy of `point_within_box`.

## Files

- `wrappers.dfy`: `Option`, `Result`, `Outcome` and the thrown `TypeError`.
- `geometry.dfy`: points and `point_within_box`.
- `identity_lists.dfy`: arrays compared by identity.
  - `indexOf`, `push` unless present, and `splice(indexOf(x), 1)`.
  - The no-duplicates invariant, with its lemmas.
- `drag_machine.dfy`: one `update` call as a pure function.
  - `Step(state, input)` gives the new state and the events emitted, in order.
  - `Run` chains `Step` over many frames.
  - The lemmas state what the drag machine promises.
- `screen_selections.dfy`: the `BoxRegionSelector` class.
  - Its fields are those of the source.
  - Its `Update` method is proved to follow `Step`, and to call the listeners of each
    emitted event in order. The calls are recorded in the ghost trace `notified`.
  - The `test_2` scenario of the tester is modelled as methods over the class.
- `sprite_selection.dfy`: the `xBoxRegionSpriteSelector` selection.
  - `class Sprite` and `class SpriteSelector`.
  - Each method is proved against a function on the selection list.

Several names used in the table below:

- `Notification(f, e)`: one listener call `f(e)`.
- `Dispatch(lists, events)`: the calls that emitting `events` makes.
- `AddAbsent(list, f)`: `list` with `f` pushed at the end unless already present.
- `RemoveFirst(list, f)`: `list` with the first occurrence of `f` spliced out.
- `Excluding(list, xs)`: `list` with every element of `xs` filtered out, order kept.
- `Distinct`: no element occurs twice.

## Model

| member | source | states |
|---|---|---|
| Geometry.PointWithinBox | src/screen_selections.js:395-414 | true exactly when the point lies between the smaller and the larger corner coordinate on both axes, borders included |
| Geometry.PointWithinBoxSymmetric | src/screen_selections.js:397-406 | the answer does not depend on which two opposing corners name the box, or on their order |
| Geometry.PointWithinBoxBorders | src/screen_selections.js:408-409 | both corners and every point of the four edges are inside; a point beyond any edge is outside |
| IdentityLists.IndexOf | src/screen_selections.js:269 | -1 exactly when the element is absent; otherwise a position holding it with no earlier occurrence |
| IdentityLists.RemoveAt | src/screen_selections.js:287 | `splice(i, 1)` leaves the elements before `i` in place and shifts the later ones down by one |
| IdentityLists.RemoveFirst | src/screen_selections.js:284-291 | an absent element leaves the list as it is; a present one shortens it by one |
| IdentityLists.RemoveFirstMultiset | src/screen_selections.js:284-291 | removal takes exactly one occurrence away and keeps every other element with its multiplicity |
| IdentityLists.AddAbsent | src/screen_selections.js:268-275 | the element is in the result; a present element leaves the list unchanged; an absent one is appended after the old list |
| IdentityLists.Excluding | src/demo_sprites/sketch.js:191-199 | definition: `list` with every element of `xs` filtered out, order kept; its contract says exactly the elements of `list` not in `xs` remain; the reference that the group removal is proved against |
| IdentityLists.AddAbsentKeepsDistinct | src/screen_selections.js:268-275 | pushing only absent elements keeps a list free of duplicates |
| IdentityLists.DistinctPairwise | src/screen_selections.js:268-275 | the recursive no-duplicates predicate holds exactly when no two positions hold the same element |
| IdentityLists.RemoveFirstDistinct | src/screen_selections.js:284-291 | in a list without duplicates, removal filters out every occurrence, keeps the rest in order, and keeps the list free of duplicates |
| IdentityLists.AddThenRemove | src/screen_selections.js:268-291 | removing a callback just pushed gives the old list back: `RemoveFirst` undoes `AddAbsent` |
| IdentityLists.ExcludingTwice | src/demo_sprites/sketch.js:191-199 | filtering out one group and then another is filtering out both at once |
| IdentityLists.RemoveFirstAt | src/demo_sprites/sketch.js:206-217 | in a list without duplicates, removing the element at position `i` splices out exactly that position |
| DragMachine.KindOf | src/screen_selections.js:88-95 | the three event-type names select their kinds; any other string selects none |
| DragMachine.KindName | src/screen_selections.js:29-33 | definition: the `EVENT_TYPES` strings "drags", "dragging" and "dragged", one per event kind |
| DragMachine.KindNameRoundTrip | src/screen_selections.js:29-33 | a kind's name selects that kind, and only that name does |
| DragMachine.Region.Coordinates | src/screen_selections.js:179 | a start region is `[x0, y0]` (length 2); the others are `[x0, y0, x, y]` (length 4) |
| DragMachine.Defaults | src/screen_selections.js:150-160 | undefined modifier keys count as not held; pointer and button pass through |
| DragMachine.Init | src/screen_selections.js:35-45 | definition: the field initialisers of a new selector: `event_info` null, every flag and the press memory false, `mouse_old` at (0, 0), and the origin at 0 (undefined in the source until the first press) |
| DragMachine.Reset | src/screen_selections.js:146-148 | definition: the reset at the top of `update`: `event_info` null, `drags` and `dragged` false |
| DragMachine.StartPhase | src/screen_selections.js:163-191 | definition: "when drag is started": a press with the memory clear sets the memory, `dragging`, `drags`, the origin and `mouse_old`, and emits one `drags` event with region `[x, y]`; otherwise nothing changes |
| DragMachine.Release | src/screen_selections.js:193-195 | definition: a released button clears the press memory |
| DragMachine.MovePhase | src/screen_selections.js:197-231 | definition: "while dragging": when the pointer differs from `mouse_old` in either axis, remember it and emit one `dragging` event with region `[x0, y0, x, y]`; otherwise nothing changes |
| DragMachine.EndPhase | src/screen_selections.js:233-258 | definition: "when drag is complete": a release while dragging clears `dragging`, sets `dragged` and emits one `dragged` event with region `[x0, y0, x, y]`; otherwise nothing changes |
| DragMachine.Step | src/screen_selections.js:145-259 | definition: one `update` call: the modifier defaults, reset, start phase, memory release, movement phase and end phase, in the source's order, with the events of the three phases in order |
| DragMachine.Run | src/screen_selections.js:145-259 | definition: one `update` call per frame, the state handed from frame to frame and the events concatenated |
| DragMachine.StepInvariant | src/screen_selections.js:145-259 | after every update `dragging == drag_start_mem`; `drags` and `dragged` are never both set; `event_info` is the last event emitted in that frame, or null when there was none |
| DragMachine.StepPressEdge | src/screen_selections.js:163-191 | a press with the memory clear sets `drags`, `dragging` and the memory, puts `x0`, `y0` and `mouse_old` at the pointer, and emits exactly one `drags` event with region `[x, y]` (no `dragging` event in that frame) |
| DragMachine.StepHeld | src/screen_selections.js:197-231 | with the button held during a drag, a `dragging` event with region `[x0, y0, x, y]` is emitted exactly when the pointer moved in either axis, and the pointer is then remembered; only the per-frame fields change otherwise |
| DragMachine.StepRelease | src/screen_selections.js:233-258 | a release while dragging clears `dragging` and the memory and sets `dragged`; it emits one `dragged` event with region `[x0, y0, x, y]`, preceded by a `dragging` event when the pointer moved; `event_info` is the `dragged` event; `mouse_old` is the current pointer, and the origin and every other field keep their values (the whole new state is given) |
| DragMachine.StepIdleRelease | src/screen_selections.js:193-195 | with the button up and no drag, nothing is emitted and only `event_info`, `drags` and `dragged` are reset |
| DragMachine.RunConsistent | src/screen_selections.js:163-237 | any number of updates from a consistent state keeps `dragging == drag_start_mem` |
| DragMachine.NeverPressedEmitsNothing | src/screen_selections.js:163-258 | if the button is never down, no callback ever fires, the selector stays idle and `event_info` stays null |
| DragMachine.HeldStillEmitsNothing | src/screen_selections.js:209-230 | holding the button without moving during a drag emits nothing for any number of frames |
| DragMachine.DragScenario | tests/sketch.js:387-396 | press at (10, 0), move to (20, 0), release there: events `drags [10, 0]`, `dragging [10, 0, 20, 0]`, `dragged [10, 0, 20, 0]`, and the drag has ended |
| DragMachine.ClickScenario | src/screen_selections.js:163-258 | a press and a release at the same point emit a start and an end event, and never a movement event |
| ScreenSelections.DispatchSingle | src/screen_selections.js:182-187 | emitting one event calls the listeners of its kind, each once, in list order |
| ScreenSelections.DispatchConcat | src/screen_selections.js:145-259 | the calls for a sequence of events are those of each event in turn |
| ScreenSelections.AddKeepsNoDuplicates | src/screen_selections.js:88-97 | adding to one list keeps all three lists free of duplicates; the list grows only when the callback was absent |
| ScreenSelections.Calls | src/screen_selections.js:184-186 | definition: the `for (let f of arr) f(e)` loop as a sequence of calls, one per listener, in list order (also lines 220-222 and 249-252) |
| ScreenSelections.Dispatch | src/screen_selections.js:145-259 | definition: the listener calls of one frame: for each emitted event in order, the calls of its kind's list |
| ScreenSelections.BoxRegionSelector.constructor | src/screen_selections.js:35-45 | a new selector is idle, has no event and no callbacks, and has made no calls |
| ScreenSelections.BoxRegionSelector.AddEventCallback | src/screen_selections.js:82-98 | an undefined type fails with "Event type must be specified. add_event_callback(f, type)" and an unknown type with "Invalid event type."; neither changes a list. Otherwise `f` is pushed onto that kind's list only if absent, the result is whether it was pushed, and the other two lists stay as they were |
| ScreenSelections.BoxRegionSelector.RemoveEventCallback | src/screen_selections.js:106-134 | with a known type, the first occurrence is removed from that list only and the result is whether there was one; an unknown type fails with "Invalid event type." and changes nothing; with no type, `f` is removed from all three lists and the result is whether any held it; afterwards `f` is in none of the lists it was removed from |
| ScreenSelections.BoxRegionSelector.Update | src/screen_selections.js:145-259 | the new drag state is `Step` of the old one, and the calls made are `Dispatch` of the emitted events, so each event calls its kind's listeners in order, events in emission order; it keeps `dragging == drag_start_mem` and never sets `drags` and `dragged` together |
| ScreenSelections.BoxRegionSelector.ResetFrame | src/screen_selections.js:146-148 | the frame starts with no event and with `drags` and `dragged` cleared |
| ScreenSelections.BoxRegionSelector.ReleaseMemory | src/screen_selections.js:193-195 | a released button clears the press memory; a held one leaves it |
| ScreenSelections.BoxRegionSelector.WhenDragStarted | src/screen_selections.js:162-191 | the state becomes the start phase's and the calls made are those of the start phase's events |
| ScreenSelections.BoxRegionSelector.WhileDragging | src/screen_selections.js:197-231 | the state becomes the movement phase's and the calls made are those of its events |
| ScreenSelections.BoxRegionSelector.WhenDragComplete | src/screen_selections.js:233-258 | the state becomes the end phase's and the calls made are those of its events |
| ScreenSelections.BoxRegionSelector.Notify | src/screen_selections.js:182-187 | each listener of the list is called once with the event, in list order |
| ScreenSelections.BoxRegionSelector.AddCallback | src/screen_selections.js:268-275 | the result is true exactly when `f` was absent from that list; the list becomes `AddAbsent` of itself; the lists stay free of duplicates |
| ScreenSelections.BoxRegionSelector.RemoveCallback | src/screen_selections.js:284-291 | the result is true exactly when `f` was in that list; the list becomes `RemoveFirst` of itself and no longer holds `f` |
| ScreenSelections.BoxRegionSelector.SetCallbacks | src/screen_selections.js:268-291 | the in-place `push` (line 271) and `splice` (line 287) on one of the three private lists: that list becomes the given one and the other two are unchanged |
| ScreenSelections.SelectorTest2 | tests/sketch.js:380-410 | in `test_2`, the duplicate registration returns false. After the press, `event_info.region` is `[10, 0]`; after the move it is `[10, 0, 20, 0]`. Callback 1 was called for the start and callback 2 for the move. Removing callback 1 from the wrong list returns false; removing callback 2 without a type returns true. The lists end as `[c1], [], [c3]` |
| ScreenSelections.Test2Register | tests/sketch.js:381-385 | the four registrations leave one callback per list; the second registration of callback 3 returns false |
| ScreenSelections.Test2Drag | tests/sketch.js:387-395 | the two updates leave the start event, then the movement event, for reading; they call callback 1 and then callback 2 |
| ScreenSelections.Test2Remove | tests/sketch.js:400-409 | removing from a list that lacks the callback returns false and changes nothing; the untyped removal returns true and empties the `dragging` list |
| DemoSprites.PointWithinRegion | src/demo_sprites/sketch.js:331-350 | inside exactly when the region has four coordinates and the point lies between the smaller and larger coordinate on both axes, borders included |
| DemoSprites.PointWithinRegionSymmetric | src/demo_sprites/sketch.js:333-342 | swapping the corners, or naming the box by its other diagonal, gives the same answer |
| DemoSprites.Admit | src/demo_sprites/sketch.js:170-184 | a removed or already selected sprite leaves the list equal to the old one; any other sprite is appended exactly once at the end; so the sprite is selected afterwards exactly when it was selected before or is not removed, no other sprite enters, and the old list stays as a prefix |
| DemoSprites.AdmitAll | src/demo_sprites/sketch.js:159-163 | definition: `Admit` of each sprite of the group in turn, in group order |
| DemoSprites.WithdrawAll | src/demo_sprites/sketch.js:191-199 | definition: `RemoveFirst` of each sprite of the group in turn, in group order |
| DemoSprites.Kept | src/demo_sprites/sketch.js:146-152 | definition: the selection with the sprites marked removed filtered out, order kept |
| DemoSprites.Swept | src/demo_sprites/sketch.js:311-321 | definition: each pool sprite in turn; one inside the region is removed from the selection with alt held and admitted otherwise; one outside is left alone |
| DemoSprites.AdmitAllExtends | src/demo_sprites/sketch.js:159-163 | adding a group keeps the old selection, in order, as a prefix and adds no duplicates |
| DemoSprites.AdmitAllSelects | src/demo_sprites/sketch.js:159-163 | after adding a group, exactly the previously selected sprites and the listed sprites that are not removed are selected |
| DemoSprites.WithdrawAllExcludes | src/demo_sprites/sketch.js:191-199 | removing a group from a selection without duplicates filters the listed sprites out, keeps the others in order, and keeps the selection free of duplicates |
| DemoSprites.KeptSelects | src/demo_sprites/sketch.js:146-152 | clearing the removed sprites keeps exactly the sprites not marked removed, and adds no duplicates |
| DemoSprites.ClearRemovedStep | src/demo_sprites/sketch.js:146-152 | each step of the backward loop examines the original sprite at position `i`; removing it when it is marked removed, or keeping it otherwise, extends the filtered suffix by one position |
| DemoSprites.ClearRemovedDrop | src/demo_sprites/sketch.js:148-149 | when the sprite at position `i` is marked removed, splicing it out of a list whose suffix after `i` is already filtered filters one more position |
| DemoSprites.ClearRemovedKeep | src/demo_sprites/sketch.js:147-148 | when the sprite at position `i` is not marked removed, the list is left as it is and is already filtered from position `i` |
| DemoSprites.SweptSelects | src/demo_sprites/sketch.js:311-321 | with alt held, no pool sprite inside the region stays selected. Without alt, every pool sprite inside the region that is not removed becomes selected. Either way every other sprite keeps its membership and no duplicates arise |
| DemoSprites.SpriteSelector.constructor | src/demo_sprites/sketch.js:114-131 | colouring is on, in "red", and nothing is selected |
| DemoSprites.SpriteSelector.AddSpriteToSelection | src/demo_sprites/sketch.js:170-184 | a missing or removed sprite returns false and changes nothing; any other sprite returns nothing and is pushed only if absent. With colouring on, a newly selected sprite's fill is saved and replaced by the selection colour; otherwise the sprite is untouched |
| DemoSprites.SpriteSelector.AddGroupToSelection | src/demo_sprites/sketch.js:159-163 | the selection becomes `AdmitAll` of the old selection and the group, and keeps no duplicates |
| DemoSprites.SpriteSelector.RemoveSpriteFromSelection | src/demo_sprites/sketch.js:206-217 | an unselected sprite changes nothing; a selected one is spliced out. With colouring on, its fill is given back the saved colour and the saved colour is dropped |
| DemoSprites.SpriteSelector.RemoveGroupFromSelection | src/demo_sprites/sketch.js:191-199 | an empty collection fails with "Use remove_sprite_from_selection for single sprites." and changes nothing; otherwise each listed sprite is removed in turn |
| DemoSprites.SpriteSelector.ClearAll | src/demo_sprites/sketch.js:136-141 | the selection ends empty |
| DemoSprites.SpriteSelector.ClearRemoved | src/demo_sprites/sketch.js:146-152 | the selection ends as the old one without the sprites marked removed, in the old order |
| DemoSprites.SpriteSelector.OnBoxDragged | src/demo_sprites/sketch.js:311-321 | the selection becomes `Swept` of the pool and the event's region and alt key, so that `SweptSelects` describes it |
| DemoSprites.SelectThenDeselect | src/demo_sprites/sketch.js:176-213 | with colouring on, selecting a sprite that was not selected and then deselecting it restores the selection and the sprite's fill, and leaves no saved colour |

## Left out

- The p5 debug drawing inside `update` (`rectMode`, `fill`, `stroke`, `rect`), at
  `src/screen_selections.js:200-206`, is rendering through a foreign library.
- `BoxRegionSpriteSelector.update`, `on_box_dragged` and `clear_selection`
  (`src/screen_selections.js:323-385`) depend on p5.play groups, `mouse` and `kb`, whose
  behaviour is not part of this model.
- The polling code of `xBoxRegionSpriteSelector` is not modelled: `update`,
  `#get_sprite_at_pos` and `#single_click_detection`. It reads the mouse, the keyboard and
  the physics world, and uses a floating-point distance. For the same reason, the settings
  used only by it are not fields of `SpriteSelector`: `single_selection_radius`,
  `single_click_move_threshold`, `auto_clear_removed` and `disable_region_on_sprite_click`.
- `DemoSprites.SpriteSelector.constructor` does not model the private `BoxRegionSelector`
  that the source creates with `#on_box_dragged` registered for `dragged` events. Only the
  polling `update` drives it. `OnBoxDragged` takes the finished drag's event as a
  parameter instead.
- The sprite pool starts empty; the source leaves `pool` undefined until the first
  `update` sets it to `allSprites`.
- Listener code is not executed. A call `f(e)` is recorded as a `Notification` in the
  ghost trace `notified`. Exceptions thrown by listeners, and listeners that subscribe or
  unsubscribe while being called, are outside the model.
- Coordinates are `int`; the source only compares them, so NaN and other floating-point
  values are outside the model. `mouse_pressed` is a `bool`, although callers pass p5's
  frame count.
- `x0` and `y0` are undefined in the source until the first press. The model starts them
  at 0; they are always set by a press before they are read.
- The `arr.length > 0` guard around each listener loop is not modelled separately: looping
  over an empty list calls nothing, the same as skipping the loop.
- The doc comment of `point_within_box` says a point on the border is outside. The
  comparisons make it inside, and the model follows the comparisons.
- The getters `drags`, `dragging`, `dragged` and `event_info` are the fields themselves.
  `debug` only switches the drawing on.
- `removed`, `x` and `y` are constants of `Sprite`: the selector never writes them.
  p5.play changes them between frames, outside the modelled code.
- Group arguments are sequences of sprites. Passing an object that is not an array (a
  single sprite, say) to `remove_group_from_selection` is the empty case. Passing the
  `selected` array itself, which JavaScript would splice during the iteration, is not
  modelled: a sequence argument is a copy.
- A `type` argument that is `null`, or any other value that is not a string, cannot be
  passed to `AddEventCallback` or `RemoveEventCallback`: the event type is an
  `Option<string>`, and `None` is `undefined`. The source rejects such a type with
  "Invalid event type." (`src/screen_selections.js:84-95`, `:108-117`).
- A `null` modifier key passed to `update` is not modelled: the source keeps it as `null`
  (`src/screen_selections.js:150-160`), while `Defaults` turns only `undefined` (`None`)
  into false.
- `RemoveSpriteFromSelection` takes a sprite, never `undefined`. Only the polling `update`
  passes `undefined`, and for it the source's `indexOf` finds nothing, so the call changes
  nothing.
- DemoSprites.SpriteSelector.AddGroupToSelection does not restate the colour changes. They
  are those of the `AddSpriteToSelection` calls it makes, one per listed sprite.
- DemoSprites.SpriteSelector.RemoveGroupFromSelection does not restate the colour changes.
  They are those of the `RemoveSpriteFromSelection` calls it makes.
- DemoSprites.SpriteSelector.ClearAll does not restate the colours it gives back. They
  are those of the `RemoveSpriteFromSelection` calls it makes.
- DemoSprites.SpriteSelector.ClearRemoved does not restate the colours it gives back.
  They are those of the `RemoveSpriteFromSelection` calls it makes.
- DemoSprites.SpriteSelector.OnBoxDragged does not restate the colour changes. They are
  those of the add and remove calls it makes.
- `Update` requires only the drag half of the invariant, and the callback methods only
  the list half. Each keeps the other half because it cannot write those fields.

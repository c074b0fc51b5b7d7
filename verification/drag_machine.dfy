/** What one call of `BoxRegionSelector.update` does, as a function of the selector's
    state and the frame's input: the state afterwards and the events emitted, in order.
    The class in ScreenSelections is proved to follow it; the lemmas here state what
    the drag machine promises. */
module DragMachine {
  import opened Wrappers
  import opened Geometry

  /** `BoxRegionSelector.EVENT_TYPES`: drag started, drag continuing, drag ended. */
  datatype EventKind = Drags | Dragging | Dragged

  /** The string the source uses for each kind. */
  function KindName(k: EventKind): string {
    match k
    case Drags => "drags"
    case Dragging => "dragging"
    case Dragged => "dragged"
  }

  /** The kind a `type` argument selects, if it is one of the three names. */
  function KindOf(name: string): (r: Option<EventKind>)
    ensures r.Some? ==> KindName(r.value) == name
    ensures r.None? ==> forall k :: KindName(k) != name
  {
    if name == "drags" then Some(Drags)
    else if name == "dragging" then Some(Dragging)
    else if name == "dragged" then Some(Dragged)
    else None
  }

  /** The `region` of an event: `[x0, y0]` for a start, `[x0, y0, x, y]` otherwise. */
  datatype Region = Origin(x0: int, y0: int) | Corners(x0: int, y0: int, x1: int, y1: int) {
    /** The region as the array the source builds. */
    function Coordinates(): (r: seq<int>)
      ensures |r| == (if Origin? then 2 else 4)
      ensures r[0] == x0 && r[1] == y0
      ensures Corners? ==> r[2] == x1 && r[3] == y1
    {
      match this
      case Origin(a, b) => [a, b]
      case Corners(a, b, c, d) => [a, b, c, d]
    }
  }

  /** A `BoxRegionSelectorEvent`. */
  datatype SelectorEvent = SelectorEvent(kind: EventKind, region: Region, shift: bool, alt: bool, ctrl: bool)

  /** The arguments of one `update(mouse_coord, mouse_pressed, key_shift?, key_alt?, key_ctrl?)`. */
  datatype Input = Input(mouse: Point, pressed: bool, shift: Option<bool>, alt: Option<bool>, ctrl: Option<bool>)

  /** The private state of a selector (its callback lists aside). `x0`, `y0` hold the
      drag origin; `mouseOld` the pointer at the last start or movement. */
  datatype DragState = DragState(
    eventInfo: Option<SelectorEvent>,
    drags: bool, dragging: bool, dragged: bool, dragStartMem: bool,
    mouseOld: Point, x0: int, y0: int)

  /** The outcome of one frame: the new state and the events emitted, in emission order. */
  datatype Frame = Frame(state: DragState, events: seq<SelectorEvent>)

  /** A new selector. (`x0`, `y0` are undefined in the source until the first press,
      which always sets them before they are read; 0 stands for them here.) */
  const Init := DragState(None, false, false, false, false, Point(0, 0), 0, 0)

  /** The "dragging" flag and the "pressed last frame" memory agree. */
  predicate Consistent(s: DragState) {
    s.dragging == s.dragStartMem
  }

  /** The arguments as `update` works with them: the absent modifier keys default to false. */
  datatype Poll = Poll(mouse: Point, pressed: bool, shift: bool, alt: bool, ctrl: bool)

  /** The defaulting at the top of `update`: a key counts as held only when it was passed as true. */
  function Defaults(i: Input): (p: Poll)
    ensures p.mouse == i.mouse && p.pressed == i.pressed
    ensures p.shift == (i.shift == Some(true)) && p.alt == (i.alt == Some(true)) && p.ctrl == (i.ctrl == Some(true))
  {
    Poll(i.mouse, i.pressed, i.shift.GetOr(false), i.alt.GetOr(false), i.ctrl.GetOr(false))
  }

  /** An event of kind `k` carrying the modifier keys of this frame. */
  function EventFor(k: EventKind, region: Region, i: Poll): SelectorEvent {
    SelectorEvent(k, region, i.shift, i.alt, i.ctrl)
  }

  /** "When drag is started": a press while the memory is clear. */
  function StartPhase(s: DragState, i: Poll): Frame {
    if i.pressed && !s.dragStartMem then
      var e := EventFor(Drags, Origin(i.mouse.x, i.mouse.y), i);
      Frame(s.(dragStartMem := true, dragging := true, drags := true,
               x0 := i.mouse.x, y0 := i.mouse.y, mouseOld := i.mouse, eventInfo := Some(e)), [e])
    else Frame(s, [])
  }

  /** "While dragging": an event only when the pointer moved since `mouseOld`. */
  function MovePhase(s: DragState, i: Poll): Frame {
    if s.dragging && (i.mouse.x != s.mouseOld.x || i.mouse.y != s.mouseOld.y) then
      var e := EventFor(Dragging, Corners(s.x0, s.y0, i.mouse.x, i.mouse.y), i);
      Frame(s.(mouseOld := i.mouse, eventInfo := Some(e)), [e])
    else Frame(s, [])
  }

  /** "When drag is complete": a release while dragging. */
  function EndPhase(s: DragState, i: Poll): Frame {
    if !i.pressed && s.dragging then
      var e := EventFor(Dragged, Corners(s.x0, s.y0, i.mouse.x, i.mouse.y), i);
      Frame(s.(dragging := false, dragged := true, eventInfo := Some(e)), [e])
    else Frame(s, [])
  }

  /** The reset at the top of `update`: no last event and no one-frame flag. */
  function Reset(s: DragState): DragState {
    s.(eventInfo := None, drags := false, dragged := false)
  }

  /** A released button clears the press memory. */
  function Release(s: DragState, pressed: bool): DragState {
    if pressed then s else s.(dragStartMem := false)
  }

  /** One `update` call: reset the one-shot flags and the last event, then the start,
      the memory reset on release, the movement and the end, in the source's order. */
  function Step(s: DragState, input: Input): Frame {
    var i := Defaults(input);
    var start := StartPhase(Reset(s), i);
    var move := MovePhase(Release(start.state, i.pressed), i);
    var end := EndPhase(move.state, i);
    Frame(end.state, start.events + move.events + end.events)
  }

  /** A sequence of `update` calls, one per frame. */
  function Run(s: DragState, inputs: seq<Input>): (f: Frame)
    decreases |inputs|
  {
    if inputs == [] then Frame(s, [])
    else
      var first := Step(s, inputs[0]);
      var rest := Run(first.state, inputs[1..]);
      Frame(rest.state, first.events + rest.events)
  }

  /** `KindOf` recognises exactly the three names. */
  lemma KindNameRoundTrip(k: EventKind, name: string)
    ensures KindOf(KindName(k)) == Some(k)
    ensures KindOf(name) == Some(k) <==> name == KindName(k)
  {
  }

  /** Every update keeps "dragging" and the press memory equal, never reports a start
      and an end in the same frame, and leaves as the last event the last one emitted. */
  lemma StepInvariant(s: DragState, i: Input)
    requires Consistent(s)
    ensures Consistent(Step(s, i).state)
    ensures !(Step(s, i).state.drags && Step(s, i).state.dragged)
    ensures Step(s, i).state.eventInfo == (if Step(s, i).events == [] then None else Some(Step(s, i).events[|Step(s, i).events| - 1]))
  {
  }

  /** Press edge: the drag starts at the pointer, exactly one start event with region
      `[x, y]` is emitted, and no movement event, as the remembered pointer is the pointer. */
  lemma StepPressEdge(s: DragState, i: Input)
    requires i.pressed && !s.dragStartMem
    ensures var r := Step(s, i).state;
      r.drags && r.dragging && !r.dragged && r.dragStartMem &&
      r.x0 == i.mouse.x && r.y0 == i.mouse.y && r.mouseOld == i.mouse
    ensures Step(s, i).events == [EventFor(Drags, Origin(i.mouse.x, i.mouse.y), Defaults(i))]
    ensures Step(s, i).state.eventInfo == Some(EventFor(Drags, Origin(i.mouse.x, i.mouse.y), Defaults(i)))
  {
  }

  /** Button held while dragging: a movement event with region `[x0, y0, x, y]` exactly
      when the pointer differs from the remembered one in either axis; the pointer is
      then remembered. Holding still emits nothing. */
  lemma StepHeld(s: DragState, i: Input)
    requires Consistent(s) && s.dragging && i.pressed
    ensures var moved := i.mouse != s.mouseOld;
      Step(s, i).events == (if moved then [EventFor(Dragging, Corners(s.x0, s.y0, i.mouse.x, i.mouse.y), Defaults(i))] else [])
    ensures Step(s, i).state == s.(eventInfo := if Step(s, i).events == [] then None else Some(Step(s, i).events[0]),
                                  drags := false, dragged := false, mouseOld := i.mouse)
  {
  }

  /** Release while dragging: the drag ends and one end event with region `[x0, y0, x, y]`
      is emitted, preceded by a movement event when the pointer moved in that frame;
      the end event is the one left for reading. */
  lemma StepRelease(s: DragState, i: Input)
    requires Consistent(s) && s.dragging && !i.pressed
    ensures var r := Step(s, i).state; !r.dragging && r.dragged && !r.drags && !r.dragStartMem
    ensures var region := Corners(s.x0, s.y0, i.mouse.x, i.mouse.y);
      Step(s, i).events ==
        (if i.mouse != s.mouseOld then [EventFor(Dragging, region, Defaults(i))] else []) + [EventFor(Dragged, region, Defaults(i))]
    ensures Step(s, i).state.eventInfo == Some(EventFor(Dragged, Corners(s.x0, s.y0, i.mouse.x, i.mouse.y), Defaults(i)))
    ensures Step(s, i).state.x0 == s.x0 && Step(s, i).state.y0 == s.y0
    ensures Step(s, i).state == s.(eventInfo := Some(EventFor(Dragged, Corners(s.x0, s.y0, i.mouse.x, i.mouse.y), Defaults(i))),
                                  drags := false, dragged := true, dragging := false, dragStartMem := false,
                                  mouseOld := i.mouse)
  {
  }

  /** Button up while idle: nothing is emitted and only the per-frame fields are reset. */
  lemma StepIdleRelease(s: DragState, i: Input)
    requires Consistent(s) && !s.dragging && !i.pressed
    ensures Step(s, i) == Frame(s.(eventInfo := None, drags := false, dragged := false), [])
  {
  }

  /** Every run from a consistent state ends in a consistent state. */
  lemma {:induction false} RunConsistent(s: DragState, inputs: seq<Input>)
    requires Consistent(s)
    ensures Consistent(Run(s, inputs).state)
    decreases |inputs|
  {
    if inputs != [] {
      StepInvariant(s, inputs[0]);
      RunConsistent(Step(s, inputs[0]).state, inputs[1..]);
    }
  }

  /** While the button stays up from an idle selector, no event is ever emitted, the
      selector stays idle and no event is left for reading. */
  lemma {:induction false} NeverPressedEmitsNothing(s: DragState, inputs: seq<Input>)
    requires Consistent(s) && !s.dragging
    requires forall k :: 0 <= k < |inputs| ==> !inputs[k].pressed
    ensures Run(s, inputs).events == []
    ensures !Run(s, inputs).state.dragging
    ensures inputs != [] ==> Run(s, inputs).state.eventInfo == None
    decreases |inputs|
  {
    if inputs != [] {
      StepIdleRelease(s, inputs[0]);
      NeverPressedEmitsNothing(Step(s, inputs[0]).state, inputs[1..]);
    }
  }

  /** Holding the button without moving the pointer during a drag emits nothing, however
      many frames it lasts: a press is reported once, at its edge. */
  lemma {:induction false} HeldStillEmitsNothing(s: DragState, inputs: seq<Input>)
    requires Consistent(s) && s.dragging
    requires forall k :: 0 <= k < |inputs| ==> inputs[k].pressed && inputs[k].mouse == s.mouseOld
    ensures Run(s, inputs).events == []
    ensures Run(s, inputs).state.dragging && Run(s, inputs).state.mouseOld == s.mouseOld
    decreases |inputs|
  {
    if inputs != [] {
      StepHeld(s, inputs[0]);
      HeldStillEmitsNothing(Step(s, inputs[0]).state, inputs[1..]);
    }
  }

  /** A drag from (10, 0) to (20, 0), released at (20, 0): a start with region `[10, 0]`,
      one movement with `[10, 0, 20, 0]`, an end with `[10, 0, 20, 0]`, and idle again. */
  lemma DragScenario()
    ensures var f := Run(Init, [Input(Point(10, 0), true, None, None, None),
                                Input(Point(20, 0), true, None, None, None),
                                Input(Point(20, 0), false, None, None, None)]);
      f.events == [SelectorEvent(Drags, Origin(10, 0), false, false, false),
                   SelectorEvent(Dragging, Corners(10, 0, 20, 0), false, false, false),
                   SelectorEvent(Dragged, Corners(10, 0, 20, 0), false, false, false)]
      && !f.state.dragging && f.state.dragged
  {
  }

  /** A click: press and release at the same point gives a start and an end, never a
      movement event. */
  lemma ClickScenario(p: Point)
    ensures var f := Run(Init, [Input(p, true, None, None, None), Input(p, false, None, None, None)]);
      f.events == [SelectorEvent(Drags, Origin(p.x, p.y), false, false, false),
                   SelectorEvent(Dragged, Corners(p.x, p.y, p.x, p.y), false, false, false)]
  {
    var a := Input(p, true, None, None, None);
    var b := Input(p, false, None, None, None);
    assert [a, b][1..] == [b];
    assert [b][1..] == [];
    var s1 := Step(Init, a);
    StepPressEdge(Init, a);
    StepRelease(s1.state, b);
    assert Run(s1.state, [b]).events == Step(s1.state, b).events;
  }
}

/** `BoxRegionSelector`: the drag machine polled once per frame, with its three
    callback lists. Callbacks are opaque values compared by identity (`F(==)`); calling
    one is recorded in the ghost trace `notified`, in call order. */
module ScreenSelections {
  import opened Wrappers
  import opened Geometry
  import opened IdentityLists
  import opened DragMachine

  /** One listener call `f(e)`. */
  datatype Notification<F> = Notification(callback: F, event: SelectorEvent)

  /** The three callback lists of a selector, one per event kind. */
  datatype CallbackLists<F> = CallbackLists(drags: seq<F>, dragging: seq<F>, dragged: seq<F>) {
    /** The list of kind `k`. */
    function For(k: EventKind): seq<F> {
      match k
      case Drags => drags
      case Dragging => dragging
      case Dragged => dragged
    }

    /** The lists with the one of kind `k` replaced by `list`. */
    function With(k: EventKind, list: seq<F>): (r: CallbackLists<F>)
      ensures r.For(k) == list && forall k' :: k' != k ==> r.For(k') == For(k')
    {
      match k
      case Drags => this.(drags := list)
      case Dragging => this.(dragging := list)
      case Dragged => this.(dragged := list)
    }
  }

  /** No list holds a callback twice. */
  predicate NoDuplicates<F(==)>(lists: CallbackLists<F>) {
    Distinct(lists.drags) && Distinct(lists.dragging) && Distinct(lists.dragged)
  }

  /** The calls `for (let f of callbacks) f(e)` makes, in order. */
  function Calls<F>(callbacks: seq<F>, e: SelectorEvent): seq<Notification<F>> {
    seq(|callbacks|, j requires 0 <= j < |callbacks| => Notification(callbacks[j], e))
  }

  /** The listener calls that emitting `events`, in order, makes. */
  function Dispatch<F>(lists: CallbackLists<F>, events: seq<SelectorEvent>): seq<Notification<F>> {
    if events == [] then [] else Calls(lists.For(events[0].kind), events[0]) + Dispatch(lists, events[1..])
  }

  /** Emitting one event calls the listeners of its kind. */
  lemma DispatchSingle<F>(lists: CallbackLists<F>, e: SelectorEvent)
    ensures Dispatch(lists, [e]) == Calls(lists.For(e.kind), e)
  {
  }

  /** Emitting `a` and then `b` makes the calls of `a` and then those of `b`. */
  lemma {:induction false} DispatchConcat<F>(lists: CallbackLists<F>, a: seq<SelectorEvent>, b: seq<SelectorEvent>)
    ensures Dispatch(lists, a + b) == Dispatch(lists, a) + Dispatch(lists, b)
    decreases |a|
  {
    if a == [] {
      assert a + b == b;
    } else {
      assert (a + b)[1..] == a[1..] + b;
      DispatchConcat(lists, a[1..], b);
    }
  }

  /** The calls of one `update` are those of its three phases, one after the other. */
  lemma FrameDispatch<F>(lists: CallbackLists<F>, before: seq<Notification<F>>, a: seq<SelectorEvent>, b: seq<SelectorEvent>, c: seq<SelectorEvent>)
    ensures before + Dispatch(lists, a) + Dispatch(lists, b) + Dispatch(lists, c) == before + Dispatch(lists, a + b + c)
  {
    DispatchConcat(lists, a + b, c);
    DispatchConcat(lists, a, b);
    ConcatAssociative(before, Dispatch(lists, a), Dispatch(lists, b), Dispatch(lists, c));
  }

  lemma ConcatAssociative<T>(w: seq<T>, x: seq<T>, y: seq<T>, z: seq<T>)
    ensures w + x + y + z == w + (x + y + z)
  {
  }

  /** Adding a callback to one list keeps all three free of duplicates. */
  lemma AddKeepsNoDuplicates<F>(lists: CallbackLists<F>, k: EventKind, f: F)
    requires NoDuplicates(lists)
    ensures NoDuplicates(lists.With(k, AddAbsent(lists.For(k), f)))
    ensures AddAbsent(lists.For(k), f) == if f in lists.For(k) then lists.For(k) else lists.For(k) + [f]
  {
    AddAbsentKeepsDistinct(lists.For(k), f);
    WithNoDuplicates(lists, k, AddAbsent(lists.For(k), f));
  }

  /** Replacing one list by a list without duplicates keeps all three free of them. */
  lemma WithNoDuplicates<F>(lists: CallbackLists<F>, k: EventKind, list: seq<F>)
    requires NoDuplicates(lists) && Distinct(list)
    ensures NoDuplicates(lists.With(k, list))
  {
  }

  const MissingTypeMessage := "Event type must be specified. add_event_callback(f, type)"
  const InvalidTypeMessage := "Invalid event type."

  class BoxRegionSelector<F(==)> {
    // The getters `drags`, `dragging`, `dragged` and `event_info` read these fields.
    var eventInfo: Option<SelectorEvent>
    var drags: bool
    var dragging: bool
    var dragged: bool
    var dragStartMem: bool
    var mouseOld: Point
    var x0: int
    var y0: int
    var dragsCallbacks: seq<F>
    var draggingCallbacks: seq<F>
    var draggedCallbacks: seq<F>
    /** Every listener call made so far. */
    ghost var notified: seq<Notification<F>>

    /** The object invariant: its drag half and its callback half. */
    ghost predicate Valid()
      reads this
    {
      DragValid() && ListsValid()
    }

    /** The dragging flag equals the press memory, and a start and an end are never
        reported in one frame. */
    ghost predicate DragValid()
      reads this`eventInfo, this`drags, this`dragging, this`dragged, this`dragStartMem
      reads this`mouseOld, this`x0, this`y0
    {
      Consistent(State()) && !(drags && dragged)
    }

    /** No callback list holds a duplicate. */
    ghost predicate ListsValid()
      reads this`dragsCallbacks, this`draggingCallbacks, this`draggedCallbacks
    {
      NoDuplicates(Lists())
    }

    /** The drag state, as the DragMachine module describes it. */
    function State(): DragState
      reads this`eventInfo, this`drags, this`dragging, this`dragged, this`dragStartMem
      reads this`mouseOld, this`x0, this`y0
    {
      DragState(eventInfo, drags, dragging, dragged, dragStartMem, mouseOld, x0, y0)
    }

    /** The three callback lists. */
    function Lists(): CallbackLists<F>
      reads this`dragsCallbacks, this`draggingCallbacks, this`draggedCallbacks
    {
      CallbackLists(dragsCallbacks, draggingCallbacks, draggedCallbacks)
    }

    /** A new selector: idle, no event, no callbacks. */
    constructor ()
      ensures Valid() && State() == Init && notified == []
      ensures dragsCallbacks == [] && draggingCallbacks == [] && draggedCallbacks == []
    {
      eventInfo := None;
      drags, dragging, dragged, dragStartMem := false, false, false, false;
      mouseOld := Point(0, 0);
      x0, y0 := 0, 0;
      dragsCallbacks, draggingCallbacks, draggedCallbacks := [], [], [];
      notified := [];
    }

    /** `add_event_callback(f, type)`: a missing or unknown type throws a `TypeError`
        and changes nothing; otherwise `f` is pushed onto that kind's list unless it is
        already there, the result says whether it was pushed, and the other lists stay. */
    method AddEventCallback(f: F, eventType: Option<string>) returns (r: Result<bool, TypeError>)
      requires ListsValid()
      modifies this`dragsCallbacks, this`draggingCallbacks, this`draggedCallbacks
      ensures ListsValid() && notified == old(notified)
      ensures eventType.None? ==> r == Failure(TypeError(MissingTypeMessage))
      ensures eventType.Some? && KindOf(eventType.value).None? ==> r == Failure(TypeError(InvalidTypeMessage))
      ensures r.Failure? ==> Lists() == old(Lists())
      ensures eventType.Some? && KindOf(eventType.value).Some? ==>
        var k := KindOf(eventType.value).value;
        && r == Success(f !in old(Lists()).For(k))
        && Lists() == old(Lists()).With(k, AddAbsent(old(Lists()).For(k), f))
    {
      if eventType.None? {
        return Failure(TypeError(MissingTypeMessage));
      }
      var kind := KindOf(eventType.value);
      if kind.None? {
        return Failure(TypeError(InvalidTypeMessage));
      }
      var added := AddCallback(kind.value, f);
      r := Success(added);
    }

    /** `remove_event_callback(f, type?)`. With a known type, the first occurrence of `f`
        is spliced out of that list only and the result says whether there was one; with
        an unknown type a `TypeError` is thrown and nothing changes; without a type, `f`
        is removed from all three lists and the result says whether any held it. As no
        list holds duplicates, `f` is in none of the lists it was removed from. */
    method RemoveEventCallback(f: F, eventType: Option<string>) returns (r: Result<bool, TypeError>)
      requires ListsValid()
      modifies this`dragsCallbacks, this`draggingCallbacks, this`draggedCallbacks
      ensures ListsValid() && notified == old(notified)
      ensures eventType.Some? && KindOf(eventType.value).None? ==>
        r == Failure(TypeError(InvalidTypeMessage)) && Lists() == old(Lists())
      ensures eventType.Some? && KindOf(eventType.value).Some? ==>
        var k := KindOf(eventType.value).value;
        && r == Success(f in old(Lists()).For(k))
        && Lists() == old(Lists()).With(k, RemoveFirst(old(Lists()).For(k), f))
        && f !in Lists().For(k)
      ensures eventType.None? ==>
        && r == Success(f in old(dragsCallbacks) || f in old(draggingCallbacks) || f in old(draggedCallbacks))
        && Lists() == CallbackLists(RemoveFirst(old(dragsCallbacks), f), RemoveFirst(old(draggingCallbacks), f),
                                    RemoveFirst(old(draggedCallbacks), f))
        && f !in dragsCallbacks && f !in draggingCallbacks && f !in draggedCallbacks
    {
      if eventType.Some? {
        var kind := KindOf(eventType.value);
        if kind.None? {
          return Failure(TypeError(InvalidTypeMessage));
        }
        var removed := RemoveCallback(kind.value, f);
        r := Success(removed);
      } else {
        var removed := false;
        var fromDrags := RemoveCallback(Drags, f);
        if fromDrags {
          removed := true;
        }
        var fromDragging := RemoveCallback(Dragging, f);
        if fromDragging {
          removed := true;
        }
        var fromDragged := RemoveCallback(Dragged, f);
        if fromDragged {
          removed := true;
        }
        r := Success(removed);
      }
    }

    /** `update(mouse_coord, mouse_pressed, key_shift?, key_alt?, key_ctrl?)`: one frame of
        the drag machine. The new state is the one `Step` gives, and the listeners of each
        emitted event are called, list order within event order. */
    method Update(mouse: Point, pressed: bool, keyShift: Option<bool>, keyAlt: Option<bool>, keyCtrl: Option<bool>)
      requires DragValid()
      modifies this`eventInfo, this`drags, this`dragging, this`dragged, this`dragStartMem
      modifies this`mouseOld, this`x0, this`y0, this`notified
      ensures DragValid()
      ensures var frame := Step(old(State()), Input(mouse, pressed, keyShift, keyAlt, keyCtrl));
        State() == frame.state && notified == old(notified) + Dispatch(old(Lists()), frame.events)
    {
      ghost var lists := Lists();
      ghost var input := Input(mouse, pressed, keyShift, keyAlt, keyCtrl);
      ResetFrame();
      var poll := Poll(mouse, pressed, keyShift.GetOr(false), keyAlt.GetOr(false), keyCtrl.GetOr(false));
      assert poll == Defaults(input);
      ghost var s1 := State();

      WhenDragStarted(poll, lists);
      ghost var start := StartPhase(s1, poll);
      ghost var afterStart := notified;

      ReleaseMemory(pressed);
      ghost var s2 := State();

      WhileDragging(poll, lists);
      ghost var move := MovePhase(s2, poll);
      ghost var afterMove := notified;

      WhenDragComplete(poll, lists);
      ghost var end := EndPhase(move.state, poll);

      FrameDispatch(lists, old(notified), start.events, move.events, end.events);
      StepInvariant(old(State()), input);
    }

    /** The reset at the top of `update`: no last event, no start or end flag. */
    method ResetFrame()
      modifies this`eventInfo, this`drags, this`dragged
      ensures State() == Reset(old(State()))
    {
      eventInfo := None;
      drags := false;
      dragged := false;
    }

    /** "Reset memory": a released button clears the press memory. */
    method ReleaseMemory(pressed: bool)
      modifies this`dragStartMem
      ensures State() == Release(old(State()), pressed)
    {
      if !pressed {
        dragStartMem := false;
      }
    }

    /** "When drag is started": on a press with the memory clear, remember the press,
        start dragging at the pointer and emit the start event. */
    method WhenDragStarted(poll: Poll, ghost lists: CallbackLists<F>)
      requires lists == Lists()
      modifies this`dragStartMem, this`dragging, this`drags, this`x0, this`y0, this`mouseOld, this`eventInfo, this`notified
      ensures State() == StartPhase(old(State()), poll).state
      ensures notified == old(notified) + Dispatch(lists, StartPhase(old(State()), poll).events)
    {
      if poll.pressed && !dragStartMem {
        dragStartMem := true;
        dragging := true;
        drags := true;
        x0 := poll.mouse.x;
        y0 := poll.mouse.y;
        mouseOld := poll.mouse;
        var e := SelectorEvent(Drags, Origin(x0, y0), poll.shift, poll.alt, poll.ctrl);
        Notify(dragsCallbacks, e);
        eventInfo := Some(e);
        DispatchSingle(lists, e);
      }
    }

    /** "While dragging": when the pointer moved, emit the movement event and remember
        the pointer. */
    method WhileDragging(poll: Poll, ghost lists: CallbackLists<F>)
      requires lists == Lists()
      modifies this`mouseOld, this`eventInfo, this`notified
      ensures State() == MovePhase(old(State()), poll).state
      ensures notified == old(notified) + Dispatch(lists, MovePhase(old(State()), poll).events)
    {
      if dragging && (poll.mouse.x != mouseOld.x || poll.mouse.y != mouseOld.y) {
        var e := SelectorEvent(Dragging, Corners(x0, y0, poll.mouse.x, poll.mouse.y), poll.shift, poll.alt, poll.ctrl);
        Notify(draggingCallbacks, e);
        mouseOld := poll.mouse;
        eventInfo := Some(e);
        DispatchSingle(lists, e);
      }
    }

    /** "When drag is complete": on a release while dragging, stop dragging and emit the
        end event. */
    method WhenDragComplete(poll: Poll, ghost lists: CallbackLists<F>)
      requires lists == Lists()
      modifies this`dragging, this`dragged, this`eventInfo, this`notified
      ensures State() == EndPhase(old(State()), poll).state
      ensures notified == old(notified) + Dispatch(lists, EndPhase(old(State()), poll).events)
    {
      if !poll.pressed && dragging {
        dragging := false;
        dragged := true;
        var e := SelectorEvent(Dragged, Corners(x0, y0, poll.mouse.x, poll.mouse.y), poll.shift, poll.alt, poll.ctrl);
        Notify(draggedCallbacks, e);
        eventInfo := Some(e);
        DispatchSingle(lists, e);
      }
    }

    /** `for (let f of arr) f(e)`: each listener in `callbacks` is called once with `e`, in order. */
    method Notify(callbacks: seq<F>, e: SelectorEvent)
      modifies this`notified
      ensures notified == old(notified) + Calls(callbacks, e)
    {
      for j := 0 to |callbacks|
        invariant notified == old(notified) + Calls(callbacks[..j], e)
      {
        assert Calls(callbacks[..j + 1], e) == Calls(callbacks[..j], e) + [Notification(callbacks[j], e)];
        notified := notified + [Notification(callbacks[j], e)];
      }
      assert callbacks[..|callbacks|] == callbacks;
    }

    /** `#add_callback(list, f)` on the list of kind `k`: push `f` unless `indexOf` finds it. */
    method AddCallback(k: EventKind, f: F) returns (added: bool)
      requires ListsValid()
      modifies this`dragsCallbacks, this`draggingCallbacks, this`draggedCallbacks
      ensures ListsValid() && notified == old(notified)
      ensures added == (f !in old(Lists()).For(k))
      ensures Lists() == old(Lists()).With(k, AddAbsent(old(Lists()).For(k), f))
    {
      var list := Lists().For(k);
      var index := IndexOf(list, f);
      added := index == -1;
      AddKeepsNoDuplicates(Lists(), k, f);
      if added {
        SetCallbacks(k, list + [f]);
      }
    }

    /** `#remove_callback(list, f)` on the list of kind `k`: splice out what `indexOf` finds. */
    method RemoveCallback(k: EventKind, f: F) returns (removed: bool)
      requires ListsValid()
      modifies this`dragsCallbacks, this`draggingCallbacks, this`draggedCallbacks
      ensures ListsValid() && notified == old(notified)
      ensures removed == (f in old(Lists()).For(k))
      ensures Lists() == old(Lists()).With(k, RemoveFirst(old(Lists()).For(k), f))
      ensures f !in Lists().For(k)
    {
      var list := Lists().For(k);
      RemoveFirstDistinct(list, f);
      var index := IndexOf(list, f);
      if index != -1 {
        WithNoDuplicates(Lists(), k, RemoveAt(list, index));
        SetCallbacks(k, RemoveAt(list, index));
        return true;
      }
      return false;
    }

    /** Replaces the list of kind `k` (the in-place `push` or `splice` on it). */
    method SetCallbacks(k: EventKind, list: seq<F>)
      modifies this`dragsCallbacks, this`draggingCallbacks, this`draggedCallbacks
      ensures Lists() == old(Lists()).With(k, list)
    {
      match k {
        case Drags => dragsCallbacks := list;
        case Dragging => draggingCallbacks := list;
        case Dragged => draggedCallbacks := list;
      }
    }
  }

  /** The callback and update scenario of `BoxRegionSelectorTester.test_2`: adding the
      same callback twice to one kind keeps one entry; a press at (10, 0) leaves the
      start event with region `[10, 0]`; moving to (20, 0) leaves the movement event with
      region `[10, 0, 20, 0]`; removing a callback from a list that lacks it reports
      false; removing one without a type reports true. */
  method SelectorTest2<F(==)>(c1: F, c2: F, c3: F)
      returns (addedAgain: bool, afterPress: Option<SelectorEvent>, afterMove: Option<SelectorEvent>,
               removedWrong: bool, removedUntyped: bool, lists: seq<seq<F>>, ghost calls: seq<Notification<F>>)
    requires c1 != c2 && c2 != c3 && c1 != c3
    ensures !addedAgain && !removedWrong && removedUntyped
    ensures afterPress == Some(SelectorEvent(Drags, Origin(10, 0), false, false, false))
    ensures afterPress.value.region.Coordinates() == [10, 0]
    ensures afterMove == Some(SelectorEvent(Dragging, Corners(10, 0, 20, 0), false, false, false))
    ensures afterMove.value.region.Coordinates() == [10, 0, 20, 0]
    ensures lists == [[c1], [], [c3]]
    ensures calls == [Notification(c1, afterPress.value), Notification(c2, afterMove.value)]
  {
    var selector;
    selector, addedAgain := Test2Register(c1, c2, c3);
    afterPress, afterMove := Test2Drag(selector, c1, c2, c3);
    calls := selector.notified;
    removedWrong, removedUntyped := Test2Remove(selector, c1, c2, c3);
    lists := [selector.dragsCallbacks, selector.draggingCallbacks, selector.draggedCallbacks];
  }

  /** The registrations of test_2: one callback per kind, the end callback twice. */
  method Test2Register<F(==)>(c1: F, c2: F, c3: F) returns (selector: BoxRegionSelector<F>, addedAgain: bool)
    ensures fresh(selector) && selector.Valid() && selector.State() == Init && selector.notified == []
    ensures selector.Lists() == CallbackLists([c1], [c2], [c3]) && !addedAgain
  {
    selector := new BoxRegionSelector<F>();
    KindNameRoundTrip(Drags, "drags");
    KindNameRoundTrip(Dragging, "dragging");
    KindNameRoundTrip(Dragged, "dragged");
    ghost var s0 := selector.State();
    var r := selector.AddEventCallback(c1, Some("drags"));
    assert selector.State() == s0;
    r := selector.AddEventCallback(c2, Some("dragging"));
    assert selector.State() == s0;
    r := selector.AddEventCallback(c3, Some("dragged"));
    assert selector.State() == s0;
    r := selector.AddEventCallback(c3, Some("dragged"));
    assert selector.State() == s0;
    addedAgain := r.value;
  }

  /** The two updates of test_2: a press at (10, 0), then the pointer at (20, 0). */
  method Test2Drag<F(==)>(selector: BoxRegionSelector<F>, c1: F, c2: F, c3: F)
      returns (afterPress: Option<SelectorEvent>, afterMove: Option<SelectorEvent>)
    requires selector.Valid() && selector.State() == Init && selector.notified == []
    requires selector.Lists() == CallbackLists([c1], [c2], [c3])
    modifies selector
    ensures selector.Valid() && selector.Lists() == CallbackLists([c1], [c2], [c3])
    ensures afterPress == Some(SelectorEvent(Drags, Origin(10, 0), false, false, false))
    ensures afterMove == Some(SelectorEvent(Dragging, Corners(10, 0, 20, 0), false, false, false))
    ensures selector.notified == [Notification(c1, afterPress.value), Notification(c2, afterMove.value)]
  {
    ghost var listeners := selector.Lists();
    ghost var press := Input(Point(10, 0), true, None, None, None);
    ghost var pressEvent := SelectorEvent(Drags, Origin(10, 0), false, false, false);
    StepPressEdge(Init, press);
    assert Step(Init, press).events == [pressEvent];
    DispatchSingle(listeners, pressEvent);
    assert Calls([c1], pressEvent) == [Notification(c1, pressEvent)];
    selector.Update(Point(10, 0), true, None, None, None);
    afterPress := selector.eventInfo;

    ghost var s1 := selector.State();
    ghost var move := Input(Point(20, 0), true, None, None, None);
    ghost var moveEvent := SelectorEvent(Dragging, Corners(10, 0, 20, 0), false, false, false);
    StepHeld(s1, move);
    assert Step(s1, move).events == [moveEvent];
    DispatchSingle(listeners, moveEvent);
    assert Calls([c2], moveEvent) == [Notification(c2, moveEvent)];
    selector.Update(Point(20, 0), true, None, None, None);
    afterMove := selector.eventInfo;
  }

  /** The removals of test_2: a callback from a list that lacks it, then one without a type. */
  method Test2Remove<F(==)>(selector: BoxRegionSelector<F>, c1: F, c2: F, c3: F)
      returns (removedWrong: bool, removedUntyped: bool)
    requires c1 != c2 && c2 != c3 && c1 != c3
    requires selector.Valid() && selector.Lists() == CallbackLists([c1], [c2], [c3])
    modifies selector
    ensures !removedWrong && removedUntyped
    ensures selector.Lists() == CallbackLists([c1], [], [c3]) && selector.notified == old(selector.notified)
  {
    KindNameRoundTrip(Dragged, "dragged");
    var r := selector.RemoveEventCallback(c1, Some("dragged"));
    removedWrong := r.value;
    assert selector.Lists() == CallbackLists([c1], [c2], [c3]);
    r := selector.RemoveEventCallback(c2, None);
    removedUntyped := r.value;
    assert [c2][..0] + [c2][1..] == [];
  }
}

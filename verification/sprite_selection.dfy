/** The selection kept by the sprite demo's `xBoxRegionSpriteSelector`: which sprites
    are selected, how single sprites, groups and finished box drags change that, and
    the debug colouring that marks a selected sprite. */
module DemoSprites {
  import opened Wrappers
  import opened Geometry
  import opened IdentityLists
  import opened DragMachine

  /** A p5.play sprite, as far as the selector uses it. Sprites are created by p5.play,
      outside the modelled code, so the class has no constructor here. The selector never writes
      `removed` or the position, so they are constants here. It does write the fill
      colour and its own property `selection_original_color` (`savedColor`; `None`
      when the property is absent or undefined). */
  class Sprite {
    const removed: bool
    const x: int
    const y: int
    var fill: Option<string>
    var savedColor: Option<string>
  }

  /** `#point_within_box(p, region)`, the demo's copy of `point_within_box`. A region
      of two numbers (a press-edge event's) has no far corner: every comparison with
      the missing entries is false, so nothing is inside it. */
  function PointWithinRegion(p: Point, region: Region): (r: bool)
    ensures r <==> region.Corners? &&
                   Min(region.x0, region.x1) <= p.x <= Max(region.x0, region.x1) &&
                   Min(region.y0, region.y1) <= p.y <= Max(region.y0, region.y1)
  {
    match region
    case Origin(_, _) => false
    case Corners(x0, y0, x1, y1) => PointWithinBox(p, Point(x0, y0), Point(x1, y1))
  }

  /** Naming the region by its other two corners, in either order, changes nothing. */
  lemma PointWithinRegionSymmetric(p: Point, x0: int, y0: int, x1: int, y1: int)
    ensures PointWithinRegion(p, Corners(x0, y0, x1, y1)) == PointWithinRegion(p, Corners(x1, y1, x0, y0))
    ensures PointWithinRegion(p, Corners(x0, y0, x1, y1)) == PointWithinRegion(p, Corners(x0, y1, x1, y0))
  {
  }

  /** Whether a sprite's anchor lies in the region. */
  predicate Inside(s: Sprite, region: Region) {
    PointWithinRegion(Point(s.x, s.y), region)
  }

  /** What `add_sprite_to_selection` does to the list: a removed sprite is refused,
      a selected one stays where it is, any other is pushed at the end. */
  function Admit(selected: seq<Sprite>, s: Sprite): (r: seq<Sprite>)
    ensures forall t | t in r :: t in selected || t == s
    ensures forall t | t in selected :: t in r
    ensures s in r <==> s in selected || !s.removed
    ensures |selected| <= |r| && r[..|selected|] == selected
    ensures s.removed || s in selected ==> r == selected
    ensures !s.removed && s !in selected ==> r == selected + [s]
  {
    if s.removed then selected else AddAbsent(selected, s)
  }

  /** What `add_group_to_selection` does to the list: `Admit` of each sprite in turn. */
  function AdmitAll(selected: seq<Sprite>, sprites: seq<Sprite>): seq<Sprite>
    decreases |sprites|
  {
    if sprites == [] then selected
    else Admit(AdmitAll(selected, sprites[..|sprites| - 1]), sprites[|sprites| - 1])
  }

  /** What `remove_group_from_selection` does to the list: each sprite's first
      occurrence removed in turn. */
  function WithdrawAll(selected: seq<Sprite>, sprites: seq<Sprite>): seq<Sprite>
    decreases |sprites|
  {
    if sprites == [] then selected
    else RemoveFirst(WithdrawAll(selected, sprites[..|sprites| - 1]), sprites[|sprites| - 1])
  }

  /** What `clear_removed` leaves: the sprites not removed, in their order. */
  function Kept(list: seq<Sprite>): seq<Sprite>
  {
    if list == [] then []
    else (if list[0].removed then [] else [list[0]]) + Kept(list[1..])
  }

  /** `clear_removed` keeps exactly the sprites not marked removed, and a list
      without duplicates stays so. */
  lemma {:induction false} KeptSelects(list: seq<Sprite>)
    ensures forall s :: s in Kept(list) <==> s in list && !s.removed
    ensures Distinct(list) ==> Distinct(Kept(list))
  {
    if list != [] {
      var tail := list[1..];
      KeptSelects(tail);
      assert list == [list[0]] + tail;
      if list[0].removed {
        assert Kept(list) == Kept(tail);
      } else {
        var r := Kept(list);
        assert r == [list[0]] + Kept(tail);
        assert r[0] == list[0] && r[1..] == Kept(tail);
      }
    }
  }

  /** What `#on_box_dragged` does to the list: for each pool sprite inside the
      region, in pool order, remove it when alt was held and add it otherwise. */
  function Swept(selected: seq<Sprite>, pool: seq<Sprite>, region: Region, alt: bool): seq<Sprite>
    decreases |pool|
  {
    if pool == [] then selected
    else
      var before := Swept(selected, pool[..|pool| - 1], region, alt);
      var s := pool[|pool| - 1];
      if !Inside(s, region) then before
      else if alt then RemoveFirst(before, s)
      else Admit(before, s)
  }

  /** Adding a group keeps the old selection, in order, as a prefix and adds no
      duplicates. */
  lemma {:induction false} AdmitAllExtends(selected: seq<Sprite>, sprites: seq<Sprite>)
    requires Distinct(selected)
    ensures var r := AdmitAll(selected, sprites);
      Distinct(r) && |selected| <= |r| && r[..|selected|] == selected
    decreases |sprites|
  {
    if sprites != [] {
      var init := sprites[..|sprites| - 1];
      var last := sprites[|sprites| - 1];
      AdmitAllExtends(selected, init);
      var before := AdmitAll(selected, init);
      AddAbsentKeepsDistinct(before, last);
      var r := Admit(before, last);
      assert r[..|selected|] == r[..|before|][..|selected|];
    }
  }

  /** Adding a group selects exactly the sprites selected before and the listed
      sprites that are not removed. */
  lemma {:induction false} AdmitAllSelects(selected: seq<Sprite>, sprites: seq<Sprite>)
    ensures forall t :: t in AdmitAll(selected, sprites) <==> t in selected || (t in sprites && !t.removed)
    decreases |sprites|
  {
    if sprites != [] {
      var init := sprites[..|sprites| - 1];
      var last := sprites[|sprites| - 1];
      AdmitAllSelects(selected, init);
      assert sprites == init + [last];
    }
  }

  /** Removing a group from a selection without duplicates filters the listed
      sprites out and keeps the others in order. */
  lemma {:induction false} WithdrawAllExcludes(selected: seq<Sprite>, sprites: seq<Sprite>)
    requires Distinct(selected)
    ensures WithdrawAll(selected, sprites) == Excluding(selected, sprites)
    ensures Distinct(WithdrawAll(selected, sprites))
    decreases |sprites|
  {
    if sprites == [] {
      ExcludingAbsent(selected, []);
    } else {
      var init := sprites[..|sprites| - 1];
      var last := sprites[|sprites| - 1];
      WithdrawAllExcludes(selected, init);
      RemoveFirstDistinct(WithdrawAll(selected, init), last);
      ExcludingTwice(selected, init, [last]);
      assert init + [last] == sprites;
    }
  }

  /** A finished drag with alt held deselects every pool sprite inside the region;
      without alt it selects every such sprite that is not removed. Either way
      no other sprite changes membership, and no duplicates arise. */
  lemma {:induction false} SweptSelects(selected: seq<Sprite>, pool: seq<Sprite>, region: Region, alt: bool)
    requires Distinct(selected)
    ensures var r := Swept(selected, pool, region, alt);
      Distinct(r) &&
      (alt ==> forall t :: t in r <==> t in selected && !(t in pool && Inside(t, region))) &&
      (!alt ==> forall t :: t in r <==> t in selected || (t in pool && Inside(t, region) && !t.removed))
    decreases |pool|
  {
    if pool != [] {
      var init := pool[..|pool| - 1];
      var s := pool[|pool| - 1];
      SweptSelects(selected, init, region, alt);
      var before := Swept(selected, init, region, alt);
      assert pool == init + [s];
      if Inside(s, region) {
        if alt {
          RemoveFirstDistinct(before, s);
        } else {
          AddAbsentKeepsDistinct(before, s);
        }
      }
    }
  }

  /** `Kept` of a suffix, one position at a time. */
  lemma KeptSuffix(list: seq<Sprite>, i: nat)
    requires i < |list|
    ensures Kept(list[i..]) == (if list[i].removed then [] else [list[i]]) + Kept(list[i + 1..])
  {
  }

  /** The loop of `clear_removed` ends with the whole list filtered. */
  lemma KeptWhole(all: seq<Sprite>)
    ensures all[..0] + Kept(all[0..]) == Kept(all)
  {
  }

  /** A sprite marked removed at position `i`: splicing it out of the list (whose
      suffix after `i` is already filtered) filters one more position. */
  lemma ClearRemovedDrop(all: seq<Sprite>, i: nat, rest: seq<Sprite>)
    requires i < |all| && all[i].removed && rest == Kept(all[i + 1..])
    requires Distinct(all[..i + 1] + rest)
    ensures RemoveFirst(all[..i + 1] + rest, all[i]) == all[..i] + Kept(all[i..])
  {
    KeptSuffix(all, i);
    var prefix := all[..i + 1];
    assert prefix[|prefix| - 1] == all[i];
    assert prefix[..|prefix| - 1] == all[..i];
    RemoveLastOfPrefix(prefix, rest);
  }

  /** A sprite not marked removed at position `i`: the list (whose suffix after `i`
      is already filtered) is already filtered from position `i`. */
  lemma ClearRemovedKeep(all: seq<Sprite>, i: nat, rest: seq<Sprite>)
    requires i < |all| && !all[i].removed && rest == Kept(all[i + 1..])
    ensures all[..i + 1] + rest == all[..i] + Kept(all[i..])
  {
    KeptSuffix(all, i);
    assert all[..i + 1] == all[..i] + [all[i]];
  }

  /** One step of `clear_removed`'s backward loop: with the sprites after position
      `i` already filtered, the sprite at `i` is the one examined, and removing it
      when it is marked removed (or keeping it otherwise) filters one more position. */
  lemma ClearRemovedStep(all: seq<Sprite>, i: nat, selected: seq<Sprite>)
    requires i < |all| && selected == all[..i + 1] + Kept(all[i + 1..]) && Distinct(selected)
    ensures selected[i] == all[i]
    ensures all[i].removed ==> RemoveFirst(selected, all[i]) == all[..i] + Kept(all[i..])
    ensures !all[i].removed ==> selected == all[..i] + Kept(all[i..])
  {
    var rest := Kept(all[i + 1..]);
    assert selected[i] == all[..i + 1][i];
    if all[i].removed {
      ClearRemovedDrop(all, i, rest);
    } else {
      ClearRemovedKeep(all, i, rest);
    }
  }

  /** The `xBoxRegionSpriteSelector` selection: the `selected` array, the `pool`
      searched by a finished drag, and the debug colouring settings. */
  class SpriteSelector {
    var selected: seq<Sprite>
    var pool: seq<Sprite>
    var debugColorize: bool
    var debugColorSelected: string

    /** No sprite is selected twice. */
    predicate Valid()
      reads this
    {
      Distinct(selected)
    }

    /** Colouring on in red, nothing selected. The pool starts empty: the source
        leaves it undefined until the first `update`. */
    constructor ()
      ensures Valid() && selected == [] && pool == []
      ensures debugColorize && debugColorSelected == "red"
    {
      debugColorize := true;
      debugColorSelected := "red";
      selected := [];
      pool := [];
    }

    /** `add_sprite_to_selection(sprite)`: returns `false` (here `Some(false)`) for a
        missing or removed sprite and nothing (`None`) otherwise. A newly selected
        sprite is pushed and, with colouring on, its fill is saved and replaced. */
    method AddSpriteToSelection(sprite: Sprite?) returns (r: Option<bool>)
      requires Valid()
      modifies this`selected, sprite
      ensures Valid()
      ensures sprite == null ==> r == Some(false) && selected == old(selected)
      ensures sprite != null ==> (r == Some(false) <==> sprite.removed) && (r != Some(false) ==> r == None)
      ensures sprite != null ==> selected == Admit(old(selected), sprite)
      ensures sprite != null && !sprite.removed && sprite !in old(selected) && debugColorize ==>
                sprite.savedColor == old(sprite.fill) && sprite.fill == Some(debugColorSelected)
      ensures sprite != null && (sprite.removed || sprite in old(selected) || !debugColorize) ==>
                unchanged(sprite)
    {
      if sprite == null || sprite.removed {
        return Some(false);
      }
      var s: Sprite := sprite;
      if IndexOf(selected, s) == -1 {
        AddAbsentKeepsDistinct(selected, s);
        if debugColorize {
          s.savedColor := s.fill;
          s.fill := Some(debugColorSelected);
        }
        selected := selected + [s];
      }
      r := None;
    }

    /** `add_group_to_selection(sprites)`: each sprite added in turn. */
    method AddGroupToSelection(sprites: seq<Sprite>)
      requires Valid()
      modifies this`selected, sprites
      ensures Valid() && selected == AdmitAll(old(selected), sprites)
    {
      for i := 0 to |sprites|
        invariant Valid() && selected == AdmitAll(old(selected), sprites[..i])
      {
        var ignored := AddSpriteToSelection(sprites[i]);
        assert sprites[..i + 1][..i] == sprites[..i];
      }
      assert sprites[..|sprites|] == sprites;
    }

    /** `remove_sprite_from_selection(sprite)`: splices out the sprite if selected
        and, with colouring on, gives back the fill it had and drops the saved one. */
    method RemoveSpriteFromSelection(sprite: Sprite)
      requires Valid()
      modifies this`selected, sprite
      ensures Valid() && selected == RemoveFirst(old(selected), sprite)
      ensures sprite in old(selected) && debugColorize ==>
                sprite.fill == old(sprite.savedColor) && sprite.savedColor == None
      ensures sprite !in old(selected) || !debugColorize ==> unchanged(sprite)
    {
      var i := IndexOf(selected, sprite);
      if i != -1 {
        if debugColorize {
          sprite.fill := sprite.savedColor;
          sprite.savedColor := None;
        }
        RemoveFirstDistinct(selected, sprite);
        selected := RemoveAt(selected, i);
      }
    }

    /** `remove_group_from_selection(sprites)`: an empty collection is refused with a
        `TypeError`; otherwise each sprite is removed in turn. */
    method RemoveGroupFromSelection(sprites: seq<Sprite>) returns (r: Outcome<TypeError>)
      requires Valid()
      modifies this`selected, sprites
      ensures Valid()
      ensures sprites == [] ==>
                r == Fail(TypeError("Use remove_sprite_from_selection for single sprites.")) &&
                selected == old(selected)
      ensures sprites != [] ==> r == Pass && selected == WithdrawAll(old(selected), sprites)
    {
      if |sprites| > 0 {
        for i := 0 to |sprites|
          invariant Valid() && selected == WithdrawAll(old(selected), sprites[..i])
        {
          RemoveSpriteFromSelection(sprites[i]);
          assert sprites[..i + 1][..i] == sprites[..i];
        }
        assert sprites[..|sprites|] == sprites;
        r := Pass;
      } else {
        r := Fail(TypeError("Use remove_sprite_from_selection for single sprites."));
      }
    }

    /** `clear_all()`: removes the selected sprites from the last to the first. */
    method ClearAll()
      requires Valid()
      modifies this`selected, selected
      ensures Valid() && selected == []
    {
      var i := |selected| - 1;
      while i >= 0
        invariant -1 <= i < |old(selected)|
        invariant Valid() && selected == old(selected)[..i + 1]
        decreases i
      {
        RemoveFirstAt(selected, i);
        RemoveSpriteFromSelection(selected[i]);
        i := i - 1;
      }
    }

    /** `clear_removed()`: removes the sprites marked removed, from the last to the
        first, and keeps the others in order. */
    method ClearRemoved()
      requires Valid()
      modifies this`selected, selected
      ensures Valid() && selected == Kept(old(selected))
    {
      ghost var all := selected;
      var i := |selected| - 1;
      while i >= 0
        invariant -1 <= i < |all|
        invariant Valid() && selected == all[..i + 1] + Kept(all[i + 1..])
        decreases i
      {
        ClearRemovedStep(all, i, selected);
        if selected[i].removed {
          RemoveSpriteFromSelection(selected[i]);
        }
        i := i - 1;
      }
      KeptWhole(all);
    }

    /** `#on_box_dragged(e)`: the callback for a finished drag. */
    method OnBoxDragged(e: SelectorEvent)
      requires Valid()
      modifies this`selected, pool
      ensures Valid() && selected == Swept(old(selected), pool, e.region, e.alt)
    {
      for i := 0 to |pool|
        invariant Valid() && selected == Swept(old(selected), pool[..i], e.region, e.alt)
      {
        var sprite := pool[i];
        assert pool[..i + 1][..i] == pool[..i];
        if PointWithinRegion(Point(sprite.x, sprite.y), e.region) {
          if e.alt {
            RemoveSpriteFromSelection(sprite);
          } else {
            var ignored := AddSpriteToSelection(sprite);
          }
        }
      }
      assert pool[..|pool|] == pool;
    }
  }

  /** With colouring on, selecting a sprite that was not selected and then
      deselecting it leaves the selection and the sprite's fill as they were, with
      no saved colour left behind. */
  method SelectThenDeselect(selector: SpriteSelector, sprite: Sprite)
    requires selector.Valid() && selector.debugColorize
    requires !sprite.removed && sprite !in selector.selected
    modifies selector`selected, sprite
    ensures selector.Valid() && selector.selected == old(selector.selected)
    ensures sprite.fill == old(sprite.fill) && sprite.savedColor == None
  {
    var r := selector.AddSpriteToSelection(sprite);
    selector.RemoveSpriteFromSelection(sprite);
    AddThenRemove(old(selector.selected), sprite);
  }
}

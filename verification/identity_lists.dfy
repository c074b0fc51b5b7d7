/** JavaScript arrays compared by identity (`===`), as `Array.prototype.indexOf`,
    `push` and `splice(i, 1)` use them. Callback lists and the sprite selection
    are both such arrays. */
module IdentityLists {

  /** No element occurs twice: the head is not in the tail, and so on down the list. */
  predicate Distinct<T(==)>(list: seq<T>) {
    list == [] || (list[0] !in list[1..] && Distinct(list[1..]))
  }

  /** `list.indexOf(x)`: the position of the first occurrence of `x`, or -1. */
  function IndexOf<T(==)>(list: seq<T>, x: T): (r: int)
    ensures r == -1 <==> x !in list
    ensures r != -1 ==> 0 <= r < |list| && list[r] == x && x !in list[..r]
  {
    if list == [] then -1
    else if list[0] == x then 0
    else
      var i := IndexOf(list[1..], x);
      if i == -1 then -1 else i + 1
  }

  /** `list.splice(i, 1)`: the list without its element at position `i`. */
  function RemoveAt<T>(list: seq<T>, i: nat): (r: seq<T>)
    requires i < |list|
    ensures |r| == |list| - 1
    ensures forall k :: 0 <= k < i ==> r[k] == list[k]
    ensures forall k :: i <= k < |r| ==> r[k] == list[k + 1]
  {
    list[..i] + list[i + 1..]
  }

  /** What `#remove_callback` and `remove_sprite_from_selection` leave of `list`:
      the first occurrence of `x` spliced out, or `list` itself when `x` is absent. */
  function RemoveFirst<T(==)>(list: seq<T>, x: T): (r: seq<T>)
    ensures x !in list ==> r == list
    ensures x in list ==> |r| == |list| - 1
  {
    var i := IndexOf(list, x);
    if i == -1 then list else RemoveAt(list, i)
  }

  /** Removing the first occurrence takes exactly one `x` away and keeps every
      other element, with its multiplicity. */
  lemma RemoveFirstMultiset<T>(list: seq<T>, x: T)
    requires x in list
    ensures multiset(RemoveFirst(list, x)) == multiset(list) - multiset{x}
  {
    var i := IndexOf(list, x);
    assert list == list[..i] + [x] + list[i + 1..];
  }

  /** What `#add_callback` and `add_sprite_to_selection` leave of `list`:
      `x` pushed at the end unless it is already present. */
  function AddAbsent<T(==)>(list: seq<T>, x: T): (r: seq<T>)
    ensures x in r
    ensures x in list ==> r == list
    ensures x !in list ==> |r| == |list| + 1 && r[..|list|] == list
  {
    if IndexOf(list, x) == -1 then list + [x] else list
  }

  /** `list` with every element that occurs in `xs` filtered out, order kept. */
  function Excluding<T(==)>(list: seq<T>, xs: seq<T>): (r: seq<T>)
    ensures forall y | y in r :: y in list && y !in xs
    ensures forall y | y in list && y !in xs :: y in r
  {
    if list == [] then []
    else (if list[0] in xs then [] else [list[0]]) + Excluding(list[1..], xs)
  }

  /** `Distinct` says what it promises: no two positions hold the same element. */
  lemma {:induction false} DistinctPairwise<T>(list: seq<T>)
    ensures Distinct(list) <==> forall i, j :: 0 <= i < j < |list| ==> list[i] != list[j]
  {
    if list != [] {
      DistinctPairwise(list[1..]);
      if Distinct(list) {
        forall i, j | 0 <= i < j < |list| ensures list[i] != list[j] {
          if i == 0 {
            assert list[j] == list[1..][j - 1];
          } else {
            assert list[i] == list[1..][i - 1] && list[j] == list[1..][j - 1];
          }
        }
      }
      if forall i, j :: 0 <= i < j < |list| ==> list[i] != list[j] {
        forall i, j | 0 <= i < j < |list[1..]| ensures list[1..][i] != list[1..][j] {
          assert list[1..][i] == list[i + 1] && list[1..][j] == list[j + 1];
        }
      }
    }
  }

  /** Pushing an element the list lacks keeps it free of duplicates. */
  lemma {:induction false} DistinctAppend<T>(list: seq<T>, x: T)
    requires Distinct(list) && x !in list
    ensures Distinct(list + [x])
  {
    if list == [] {
      assert [x][1..] == [];
    } else {
      assert (list + [x])[1..] == list[1..] + [x];
      DistinctAppend(list[1..], x);
    }
  }

  /** Pushing an absent element keeps a list free of duplicates. */
  lemma AddAbsentKeepsDistinct<T>(list: seq<T>, x: T)
    requires Distinct(list)
    ensures Distinct(AddAbsent(list, x))
  {
    if x !in list {
      DistinctAppend(list, x);
    }
  }

  /** Removing an element other than the head leaves the head in front. */
  lemma RemoveFirstCons<T>(list: seq<T>, x: T)
    requires list != [] && list[0] != x
    ensures RemoveFirst(list, x) == [list[0]] + RemoveFirst(list[1..], x)
  {
  }

  /** In a list without duplicates, removing the first occurrence removes every
      occurrence and keeps the other elements in order. */
  lemma {:induction false} RemoveFirstDistinct<T>(list: seq<T>, x: T)
    requires Distinct(list)
    ensures RemoveFirst(list, x) == Excluding(list, [x])
    ensures Distinct(RemoveFirst(list, x))
  {
    if list != [] {
      if list[0] == x {
        ExcludingAbsent(list[1..], [x]);
        assert RemoveFirst(list, x) == list[1..];
      } else {
        RemoveFirstDistinct(list[1..], x);
        RemoveFirstCons(list, x);
        var r := RemoveFirst(list, x);
        assert list[0] !in RemoveFirst(list[1..], x);
        assert r[0] == list[0] && r[1..] == RemoveFirst(list[1..], x);
      }
    }
  }

  /** Filtering out elements that do not occur leaves the list as it is. */
  lemma {:induction false} ExcludingAbsent<T>(list: seq<T>, xs: seq<T>)
    requires forall y :: y in list ==> y !in xs
    ensures Excluding(list, xs) == list
  {
    if list != [] {
      ExcludingAbsent(list[1..], xs);
      assert [list[0]] + list[1..] == list;
    }
  }

  /** In a list without duplicates, the element at position `i` is the first
      occurrence of itself, so removing it splices out exactly that position. */
  lemma RemoveFirstAt<T>(list: seq<T>, i: nat)
    requires Distinct(list) && i < |list|
    ensures RemoveFirst(list, list[i]) == list[..i] + list[i + 1..]
  {
    DistinctPairwise(list);
    assert list[i] !in list[..i];
  }

  /** Pushing an absent element and then removing it gives the list back:
      `RemoveFirst` undoes `AddAbsent`. */
  lemma AddThenRemove<T>(list: seq<T>, x: T)
    requires x !in list
    ensures RemoveFirst(AddAbsent(list, x), x) == list
  {
  }

  /** Filtering out `xs` and then `ys` is filtering out `xs + ys`. */
  lemma {:induction false} ExcludingTwice<T>(list: seq<T>, xs: seq<T>, ys: seq<T>)
    ensures Excluding(Excluding(list, xs), ys) == Excluding(list, xs + ys)
  {
    if list != [] {
      ExcludingTwice(list[1..], xs, ys);
      var head := if list[0] in xs then [] else [list[0]];
      var rest := Excluding(list[1..], xs);
      assert Excluding(list, xs) == head + rest;
      if head == [] {
        assert Excluding(list, xs) == rest;
      } else {
        assert (head + rest)[1..] == rest;
      }
    }
  }

  /** Removing the last element of a prefix from a list without duplicates splices
      out exactly that position and leaves what follows it in place. */
  lemma RemoveLastOfPrefix<T>(prefix: seq<T>, rest: seq<T>)
    requires prefix != [] && Distinct(prefix + rest)
    ensures RemoveFirst(prefix + rest, prefix[|prefix| - 1]) == prefix[..|prefix| - 1] + rest
  {
    var list := prefix + rest;
    var i := |prefix| - 1;
    RemoveFirstAt(list, i);
    assert list[..i] == prefix[..i];
    assert list[i + 1..] == rest;
  }
}

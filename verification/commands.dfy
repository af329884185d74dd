/** The user commands: moving focus along the tile order and moving the
    focused tile along it by adjacent swaps. */
module Commands {
  import opened Wrappers
  import opened Tiles

  /** `v` limited to [lo, hi]. */
  function Clamp(v: int, lo: int, hi: int): (r: int)
    requires lo <= hi
    ensures lo <= r <= hi
    ensures lo <= v <= hi ==> r == v
    ensures v < lo ==> r == lo
    ensures v > hi ==> r == hi
  {
    if v < lo then lo else if v > hi then hi else v
  }

  /** Index of the first tile of the active window, if any. The loop scans
      from the front and stops at the first match. */
  method CurrentTileIndex(tiles: seq<Tile>, active: Option<ClientId>) returns (r: Option<nat>)
    ensures r.Some? ==>
      && r.value < |tiles|
      && active == Some(tiles[r.value].client)
      && forall j :: 0 <= j < r.value ==> active != Some(tiles[j].client)
    ensures r.None? <==> forall j :: 0 <= j < |tiles| ==> active != Some(tiles[j].client)
  {
    var i := 0;
    while i < |tiles|
      invariant 0 <= i <= |tiles|
      invariant forall j :: 0 <= j < i ==> active != Some(tiles[j].client)
    {
      if active == Some(tiles[i].client) {
        return Some(i);
      }
      i := i + 1;
    }
    return None;
  }

  /** The window to activate when focus moves `step` tiles from `current`:
      the tile at the clamped index, never wrapping. A zero step or no current
      tile activates nothing. The tiles themselves are not touched. */
  function MoveFocus(tiles: seq<Tile>, current: Option<nat>, step: int): (r: Option<ClientId>)
    requires current.Some? ==> current.value < |tiles|
    ensures r.None? <==> step == 0 || current.None?
    ensures r.Some? ==> r.value == tiles[Clamp(current.value + step, 0, |tiles| - 1)].client
  {
    if step == 0 || current.None? then None
    else Some(tiles[Clamp(current.value + step, 0, |tiles| - 1)].client)
  }

  /** Exchanges the elements at i and j. */
  function Swap<T>(s: seq<T>, i: nat, j: nat): (r: seq<T>)
    requires i < |s| && j < |s|
    ensures |r| == |s|
    ensures r[i] == s[j] && r[j] == s[i]
    ensures forall k :: 0 <= k < |s| && k != i && k != j ==> r[k] == s[k]
  {
    s[i := s[j]][j := s[i]]
  }

  /** Takes the element at i out and puts it back in at position j. */
  function Reposition<T>(s: seq<T>, i: nat, j: nat): (r: seq<T>)
    requires i < |s| && j < |s|
    ensures |r| == |s|
  {
    var rest := s[..i] + s[i + 1..];
    rest[..j] + [s[i]] + rest[j..]
  }

  /** Repositioning only reorders: the result is a permutation. */
  lemma RepositionPermutes<T>(s: seq<T>, i: nat, j: nat)
    requires i < |s| && j < |s|
    ensures multiset(Reposition(s, i, j)) == multiset(s)
  {
    var rest := s[..i] + s[i + 1..];
    assert s == s[..i] + [s[i]] + s[i + 1..];
    assert multiset(s) == multiset(rest) + multiset{s[i]};
    assert rest == rest[..j] + rest[j..];
  }

  /** Repositioning moves only the element at i, to j; the elements between
      shift by one towards i and all others stay put. */
  lemma RepositionAt<T>(s: seq<T>, i: nat, j: nat)
    requires i < |s| && j < |s|
    ensures Reposition(s, i, j)[j] == s[i]
    ensures forall k :: 0 <= k < |s| && k < i && k < j ==> Reposition(s, i, j)[k] == s[k]
    ensures forall k :: 0 <= k < |s| && k > i && k > j ==> Reposition(s, i, j)[k] == s[k]
    ensures forall k :: i <= k < j ==> Reposition(s, i, j)[k] == s[k + 1]
    ensures forall k :: j < k <= i ==> Reposition(s, i, j)[k] == s[k - 1]
  {
    var rest := s[..i] + s[i + 1..];
    assert forall k :: 0 <= k < i ==> rest[k] == s[k];
    assert forall k :: i <= k < |rest| ==> rest[k] == s[k + 1];
  }

  /** Moving an element back to where it came from restores the sequence. */
  lemma RepositionInverse<T>(s: seq<T>, i: nat, j: nat)
    requires i < |s| && j < |s|
    ensures Reposition(Reposition(s, i, j), j, i) == s
  {
    var r := Reposition(s, i, j);
    var b := Reposition(r, j, i);
    RepositionAt(s, i, j);
    RepositionAt(r, j, i);
    forall k | 0 <= k < |s|
      ensures b[k] == s[k]
    {
      if k == i {
      } else if i < j && i < k <= j {
        assert b[k] == r[k - 1];
      } else if j < i && j <= k < i {
        assert b[k] == r[k + 1];
      }
    }
  }

  /** The engine's swap loops: swap the element at i with its neighbour in the
      direction of `step`, |step| times, stopping at either end. */
  function Shift<T>(s: seq<T>, i: nat, step: int): (r: seq<T>)
    requires i < |s|
    ensures |r| == |s|
    ensures step >= 0 ==> forall k :: 0 <= k < |s| && (k < i || k > i + step) ==> r[k] == s[k]
    ensures step <= 0 ==> forall k :: 0 <= k < |s| && (k < i + step || k > i) ==> r[k] == s[k]
    decreases if step >= 0 then step else -step
  {
    if step > 0 && i + 1 < |s| then Shift(Swap(s, i, i + 1), i + 1, step - 1)
    else if step < 0 && i >= 1 then Shift(Swap(s, i, i - 1), i - 1, step + 1)
    else s
  }

  /** Repositioning after one forward swap is repositioning from the start. */
  lemma RepositionAfterSwapForward<T>(s: seq<T>, i: nat, j: nat)
    requires i + 1 <= j < |s|
    ensures Reposition(Swap(s, i, i + 1), i + 1, j) == Reposition(s, i, j)
  {
    var w := Swap(s, i, i + 1);
    var a := Reposition(w, i + 1, j);
    var b := Reposition(s, i, j);
    RepositionAt(w, i + 1, j);
    RepositionAt(s, i, j);
    forall k | 0 <= k < |s|
      ensures a[k] == b[k]
    {
      if k < i {
        assert a[k] == w[k];
      } else if k == i {
        assert a[k] == w[k];
      } else if k < j {
        assert a[k] == w[k + 1];
      } else if k > j {
        assert a[k] == w[k];
      }
    }
  }

  /** Repositioning after one backward swap is repositioning from the start. */
  lemma RepositionAfterSwapBackward<T>(s: seq<T>, i: nat, j: nat)
    requires j + 1 <= i < |s|
    ensures Reposition(Swap(s, i, i - 1), i - 1, j) == Reposition(s, i, j)
  {
    var w := Swap(s, i, i - 1);
    var a := Reposition(w, i - 1, j);
    var b := Reposition(s, i, j);
    RepositionAt(w, i - 1, j);
    RepositionAt(s, i, j);
    forall k | 0 <= k < |s|
      ensures a[k] == b[k]
    {
      if k < j {
        assert a[k] == w[k];
      } else if j < k < i {
        assert a[k] == w[k - 1];
      } else if k == i {
        assert a[k] == w[k];
      } else if k > i {
        assert a[k] == w[k];
      }
    }
  }

  /** Leaving an element where it is changes nothing. */
  lemma RepositionInPlace<T>(s: seq<T>, i: nat)
    requires i < |s|
    ensures Reposition(s, i, i) == s
  {
    RepositionAt(s, i, i);
  }

  /** Forward moves: each swap carries the element one place down until the
      step is used up or the end is reached. */
  lemma {:induction false} ShiftForward<T>(s: seq<T>, i: nat, step: int)
    requires i < |s| && step >= 0
    ensures Shift(s, i, step) == Reposition(s, i, Clamp(i + step, 0, |s| - 1))
    decreases step
  {
    var j := Clamp(i + step, 0, |s| - 1);
    if step > 0 && i + 1 < |s| {
      var w := Swap(s, i, i + 1);
      ShiftForward(w, i + 1, step - 1);
      assert Clamp(i + 1 + (step - 1), 0, |w| - 1) == j;
      RepositionAfterSwapForward(s, i, j);
      calc {
        Shift(s, i, step);
        Shift(w, i + 1, step - 1);
        Reposition(w, i + 1, j);
        Reposition(s, i, j);
      }
    } else {
      RepositionInPlace(s, i);
    }
  }

  /** Backward moves: each swap carries the element one place up until the
      step is used up or the front is reached. */
  lemma {:induction false} ShiftBackward<T>(s: seq<T>, i: nat, step: int)
    requires i < |s| && step <= 0
    ensures Shift(s, i, step) == Reposition(s, i, Clamp(i + step, 0, |s| - 1))
    decreases -step
  {
    var j := Clamp(i + step, 0, |s| - 1);
    if step < 0 && i >= 1 {
      var w := Swap(s, i, i - 1);
      ShiftBackward(w, i - 1, step + 1);
      assert Clamp(i - 1 + (step + 1), 0, |w| - 1) == j;
      RepositionAfterSwapBackward(s, i, j);
      calc {
        Shift(s, i, step);
        Shift(w, i - 1, step + 1);
        Reposition(w, i - 1, j);
        Reposition(s, i, j);
      }
    } else {
      RepositionInPlace(s, i);
    }
  }

  /** The swap loop moves the element at i to clamp(i + step, 0, |s| - 1),
      shifting the elements in between by one and leaving the rest alone. */
  lemma ShiftIsReposition<T>(s: seq<T>, i: nat, step: int)
    requires i < |s|
    ensures Shift(s, i, step) == Reposition(s, i, Clamp(i + step, 0, |s| - 1))
  {
    if step >= 0 {
      ShiftForward(s, i, step);
    } else {
      ShiftBackward(s, i, step);
    }
  }

  /** The tiles after the move command: a zero step or no current tile leaves
      them as they are; otherwise the current tile moves `step` places,
      clamped at either end, and the result is a permutation of the input. */
  function MoveTile(tiles: seq<Tile>, current: Option<nat>, step: int): (r: seq<Tile>)
    requires current.Some? ==> current.value < |tiles|
    ensures multiset(r) == multiset(tiles)
    ensures step == 0 || current.None? ==> r == tiles
    ensures step != 0 && current.Some? ==>
      r == Reposition(tiles, current.value, Clamp(current.value + step, 0, |tiles| - 1))
  {
    if step == 0 || current.None? then tiles
    else
      var i := current.value;
      var j := Clamp(i + step, 0, |tiles| - 1);
      var r := Shift(tiles, i, step);
      ShiftIsReposition(tiles, i, step);
      assert r == Reposition(tiles, i, j);
      RepositionPermutes(tiles, i, j);
      assert multiset(r) == multiset(tiles);
      r
  }

  /** Moving a tile down one place and then moving it back up restores the
      order. */
  lemma MoveDownThenUp(tiles: seq<Tile>, i: nat)
    requires i + 1 < |tiles|
    ensures MoveTile(MoveTile(tiles, Some(i), 1), Some(i + 1), -1) == tiles
  {
    RepositionInverse(tiles, i, i + 1);
  }

  /** Moving a tile by any step and then by the opposite step from where it
      landed restores the order, unless the first move was cut short. */
  lemma MoveThenBack(tiles: seq<Tile>, i: nat, step: int)
    requires i < |tiles|
    requires 0 <= i + step < |tiles|
    ensures MoveTile(MoveTile(tiles, Some(i), step), Some(i + step), -step) == tiles
  {
    var j := i + step;
    var m := MoveTile(tiles, Some(i), step);
    if step != 0 {
      assert Clamp(i + step, 0, |tiles| - 1) == j;
      assert m == Reposition(tiles, i, j);
      assert Clamp(j + -step, 0, |m| - 1) == i;
      assert MoveTile(m, Some(j), -step) == Reposition(m, j, i);
      RepositionInverse(tiles, i, j);
    }
  }
}

/** The master-stack layout: the first `nmaster` tiles share a left column,
    the rest share a right column; every height is floor-divided. */
module MasterStack {
  import opened Geometry
  import opened Tiles

  /** Percentage of the width given to the stack column when unset. */
  const DefaultRatio: nat := 45
  /** Number of master tiles when unset. */
  const DefaultMaster: nat := 1

  /** The option bag after the layout has filled in absent or falsy options. */
  function WithDefaults(o: LayoutOpts): (d: LayoutOpts)
    ensures d.ratio != 0 && d.nmaster != 0
    ensures o.ratio != 0 ==> d.ratio == o.ratio
    ensures o.nmaster != 0 ==> d.nmaster == o.nmaster
    ensures o.ratio == 0 ==> d.ratio == DefaultRatio
    ensures o.nmaster == 0 ==> d.nmaster == DefaultMaster
  {
    LayoutOpts(if o.ratio == 0 then DefaultRatio else o.ratio,
               if o.nmaster == 0 then DefaultMaster else o.nmaster)
  }

  /** Defaulting is a no-op exactly on bags whose options are all set, and
      applying it twice is the same as applying it once. */
  lemma DefaultsSettle(o: LayoutOpts)
    ensures WithDefaults(o) == o <==> o.ratio != 0 && o.nmaster != 0
    ensures WithDefaults(WithDefaults(o)) == WithDefaults(o)
  {
  }

  /** floor(areaWidth * (100 - ratio) / 100): the master column's width. The
      divisor is positive, so Dafny's division is JavaScript's `Math.floor`
      (src/engine.ts:75). */
  function MasterWidth(areaWidth: nat, ratio: nat): int {
    (areaWidth * (100 - ratio)) / 100
  }

  /** Height of each of `count` cells sharing `areaHeight`; 0 for no cells. */
  function CellHeight(areaHeight: nat, count: nat): nat {
    if count == 0 then 0 else areaHeight / count
  }

  /** rs[lo..hi] is one column at `x`, `width` wide: hi - lo cells of equal
      floor-divided height, stacked from the top in order. */
  ghost predicate IsColumn(rs: seq<Rect>, lo: nat, hi: nat, x: int, width: int, areaHeight: nat)
    requires lo <= hi <= |rs|
  {
    var h := CellHeight(areaHeight, hi - lo);
    forall k :: lo <= k < hi ==> rs[k] == Rect(x, h * (k - lo), width, h)
  }

  /** `count` cells forming one column. */
  function Column(count: nat, x: int, width: int, areaHeight: nat): (c: seq<Rect>)
    ensures |c| == count
    ensures IsColumn(c, 0, count, x, width, areaHeight)
  {
    var h := CellHeight(areaHeight, count);
    seq(count, k requires 0 <= k < count => Rect(x, h * k, width, h))
  }

  /** What the layout produces: one rectangle per tile, in tile order, and the
      option bag as the layout leaves it. */
  datatype Placement = Placement(rects: seq<Rect>, opts: LayoutOpts)

  /** The layout of `n` tiles on an areaWidth x areaHeight area. */
  function LayoutTile(n: nat, areaWidth: nat, areaHeight: nat, opts: LayoutOpts): (r: Placement)
    ensures r.opts == WithDefaults(opts)
    ensures |r.rects| == n
    ensures n <= r.opts.nmaster ==> IsColumn(r.rects, 0, n, 0, areaWidth, areaHeight)
    ensures n > r.opts.nmaster ==>
      var m := r.opts.nmaster;
      var mw := MasterWidth(areaWidth, r.opts.ratio);
      && IsColumn(r.rects, 0, m, 0, mw, areaHeight)
      && IsColumn(r.rects, m, n, mw + 1, areaWidth - mw, areaHeight)
  {
    var o := WithDefaults(opts);
    if n <= o.nmaster then
      Placement(Column(n, 0, areaWidth, areaHeight), o)
    else
      var mw := MasterWidth(areaWidth, o.ratio);
      var master := Column(o.nmaster, 0, mw, areaHeight);
      var stack := Column(n - o.nmaster, mw + 1, areaWidth - mw, areaHeight);
      assert forall k :: o.nmaster <= k < n ==> (master + stack)[k] == stack[k - o.nmaster];
      Placement(master + stack, o)
  }

  /** The layout reads its options only after defaulting them, so a screen
      whose options were already defaulted is laid out the same way. */
  lemma LayoutSettled(n: nat, areaWidth: nat, areaHeight: nat, opts: LayoutOpts)
    ensures LayoutTile(n, areaWidth, areaHeight, WithDefaults(opts))
         == LayoutTile(n, areaWidth, areaHeight, opts)
  {
    DefaultsSettle(opts);
  }

  /** A column of at least one cell covers the area from the top without gaps
      or overlaps: cells have equal height, each starts where the previous one
      ends, and the column ends less than one cell per tile above the bottom. */
  lemma ColumnCoverage(rs: seq<Rect>, lo: nat, hi: nat, x: int, width: int, areaHeight: nat)
    requires lo < hi <= |rs|
    requires IsColumn(rs, lo, hi, x, width, areaHeight)
    ensures rs[lo].y == 0
    ensures forall k :: lo <= k < hi ==> rs[k].height == rs[lo].height && rs[k].x == x && Right(rs[k]) == x + width
    ensures forall k :: lo <= k < hi - 1 ==> Bottom(rs[k]) == rs[k + 1].y
    ensures areaHeight - (hi - lo) < Bottom(rs[hi - 1]) <= areaHeight
  {
    var c := hi - lo;
    var h := areaHeight / c;
    forall k | lo <= k < hi - 1
      ensures Bottom(rs[k]) == rs[k + 1].y
    {
      assert rs[k] == Rect(x, h * (k - lo), width, h);
      assert rs[k + 1] == Rect(x, h * (k + 1 - lo), width, h);
      NextCell(h, k - lo);
    }
    assert rs[hi - 1] == Rect(x, h * (c - 1), width, h);
    NextCell(h, c - 1);
    FloorBounds(areaHeight, c);
  }

  /** The cell after cell j starts one cell height further down. */
  lemma NextCell(h: int, j: int)
    ensures h * (j + 1) == h * j + h
  {
  }

  /** Floor division loses less than one divisor. */
  lemma FloorBounds(a: nat, c: nat)
    requires c > 0
    ensures a - c < (a / c) * c <= a
  {
    assert a == c * (a / c) + a % c;
  }

  /** Within a column of two or more cells the tops strictly increase exactly
      when the area is at least one pixel high per cell; otherwise every cell
      is zero pixels high and they all sit at the top. */
  lemma ColumnStrictlyIncreasing(rs: seq<Rect>, lo: nat, hi: nat, x: int, width: int, areaHeight: nat)
    requires lo + 2 <= hi <= |rs|
    requires IsColumn(rs, lo, hi, x, width, areaHeight)
    ensures (forall k :: lo <= k < hi - 1 ==> rs[k].y < rs[k + 1].y) <==> areaHeight >= hi - lo
  {
    var c := hi - lo;
    var h := areaHeight / c;
    ColumnCoverage(rs, lo, hi, x, width, areaHeight);
    assert rs[lo].height == h;
    if areaHeight >= c {
      assert h >= 1;
      forall k | lo <= k < hi - 1
        ensures rs[k].y < rs[k + 1].y
      {
        assert rs[k].height == h;
      }
    } else {
      assert h == 0;
      assert rs[lo].y == rs[lo + 1].y;
    }
  }

  /** With both columns present, the master and stack widths add up to the
      area width, the stack starts one pixel right of the master column and so
      its right edge lands one pixel past the area; with the ratio at most 100
      the master column fits inside the area. */
  lemma TwoColumnWidths(n: nat, areaWidth: nat, areaHeight: nat, opts: LayoutOpts)
    requires n > WithDefaults(opts).nmaster
    ensures var r := LayoutTile(n, areaWidth, areaHeight, opts);
      var m := r.opts.nmaster;
      && r.rects[0].width + r.rects[m].width == areaWidth
      && r.rects[m].x == Right(r.rects[0]) + 1
      && (forall k :: m <= k < n ==> Right(r.rects[k]) == areaWidth + 1)
      && (forall k :: 0 <= k < m ==> r.rects[k].x == 0)
      && (r.opts.ratio <= 100 ==> 0 <= r.rects[0].width <= areaWidth)
  {
    var r := LayoutTile(n, areaWidth, areaHeight, opts);
    var m := r.opts.nmaster;
    var mw := MasterWidth(areaWidth, r.opts.ratio);
    assert r.rects[0].x == 0 && r.rects[0].width == mw;
    assert r.rects[m].x == mw + 1 && r.rects[m].width == areaWidth - mw;
    forall k | m <= k < n
      ensures Right(r.rects[k]) == areaWidth + 1
    {
      assert r.rects[k].x == mw + 1 && r.rects[k].width == areaWidth - mw;
    }
    if r.opts.ratio <= 100 {
      MasterWidthFits(areaWidth, r.opts.ratio);
    }
  }

  /** A ratio of at most 100 percent keeps the master column inside the area. */
  lemma MasterWidthFits(areaWidth: nat, ratio: nat)
    requires ratio <= 100
    ensures 0 <= MasterWidth(areaWidth, ratio) <= areaWidth
  {
    assert 0 <= areaWidth * (100 - ratio) <= areaWidth * 100;
  }

  /** 1000 x 800, three tiles, default options. */
  lemma ExampleThreeTiles()
    ensures LayoutTile(3, 1000, 800, NoOpts).rects
         == [Rect(0, 0, 550, 800), Rect(551, 0, 450, 400), Rect(551, 400, 450, 400)]
  {
    var r := LayoutTile(3, 1000, 800, NoOpts);
    assert r.opts == LayoutOpts(45, 1);
    assert MasterWidth(1000, 45) == 550;
  }

  /** 1000 x 800, one tile: it takes the whole area. */
  lemma ExampleOneTile()
    ensures LayoutTile(1, 1000, 800, NoOpts).rects == [Rect(0, 0, 1000, 800)]
  {
  }

  /** 900 x 600, four tiles, two masters: the stack column is
      900 - 495 = 405 wide. */
  lemma ExampleTwoMasters()
    ensures LayoutTile(4, 900, 600, LayoutOpts(0, 2)).rects
         == [Rect(0, 0, 495, 300), Rect(0, 300, 495, 300),
             Rect(496, 0, 405, 300), Rect(496, 300, 405, 300)]
  {
    var r := LayoutTile(4, 900, 600, LayoutOpts(0, 2));
    assert r.opts == LayoutOpts(45, 2);
    assert MasterWidth(900, 45) == 495;
  }

  /** No tiles, nothing laid out. */
  lemma ExampleNoTiles(areaWidth: nat, areaHeight: nat, opts: LayoutOpts)
    ensures LayoutTile(0, areaWidth, areaHeight, opts).rects == []
  {
  }

  /** The layout's in-place loops: two counted loops that overwrite the geometry
      of the master tiles and then of the stack tiles in place. It assigns each
      tile exactly the rectangle LayoutTile gives its position and changes
      nothing else about any tile. */
  method LayoutInPlace(tiles: seq<Tile>, areaWidth: nat, areaHeight: nat, opts: LayoutOpts)
    returns (laid: seq<Tile>, settled: LayoutOpts)
    ensures settled == WithDefaults(opts)
    ensures |laid| == |tiles|
    ensures forall i :: 0 <= i < |tiles| ==>
      laid[i] == tiles[i].(geometry := LayoutTile(|tiles|, areaWidth, areaHeight, opts).rects[i])
  {
    settled := WithDefaults(opts);
    ghost var rects := LayoutTile(|tiles|, areaWidth, areaHeight, opts).rects;
    var n := |tiles|;
    var masterCount, masterWidth, masterHeight;
    var stackCount, stackWidth, stackHeight, stackX;
    if n <= settled.nmaster {
      masterCount := n;
      masterWidth := areaWidth;
      masterHeight := CellHeight(areaHeight, n);
      stackCount, stackWidth, stackHeight, stackX := 0, 0, 0, 0;
    } else {
      masterCount := settled.nmaster;
      masterWidth := MasterWidth(areaWidth, settled.ratio);
      masterHeight := CellHeight(areaHeight, masterCount);
      stackCount := n - masterCount;
      stackWidth := areaWidth - masterWidth;
      stackHeight := CellHeight(areaHeight, stackCount);
      stackX := masterWidth + 1;
    }

    laid := tiles;
    var i := 0;
    while i < masterCount
      invariant 0 <= i <= masterCount
      invariant |laid| == n
      invariant forall k :: 0 <= k < i ==> laid[k] == tiles[k].(geometry := rects[k])
      invariant forall k :: i <= k < n ==> laid[k] == tiles[k]
    {
      laid := laid[i := laid[i].(geometry := Rect(0, masterHeight * i, masterWidth, masterHeight))];
      i := i + 1;
    }

    i := 0;
    while i < stackCount
      invariant 0 <= i <= stackCount
      invariant |laid| == n
      invariant forall k :: 0 <= k < masterCount + i ==> laid[k] == tiles[k].(geometry := rects[k])
      invariant forall k :: masterCount + i <= k < n ==> laid[k] == tiles[k]
    {
      var j := masterCount + i;
      laid := laid[j := laid[j].(geometry := Rect(stackX, stackHeight * i, stackWidth, stackHeight))];
      i := i + 1;
    }
  }
}

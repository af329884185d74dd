/** One arrangement pass: for every screen, ask the host which tiles are
    visible there, lay the visible ones out and commit their geometry; plus
    the single-window reconciliation used when the host reports a drift. */
module Arrangement {
  import opened Wrappers
  import opened Geometry
  import opened Tiles
  import opened MasterStack
  import opened Seqs

  /** The usable area of a screen. */
  datatype Area = Area(width: nat, height: nat)

  /** The host, reduced to the queries the engine makes. A visibility or
      geometry query that throws answers None. */
  datatype Driver = Driver(
    workingArea: ScreenId -> Area,
    isVisible: (ClientId, ScreenId) -> Option<bool>,
    geometryOf: ClientId -> Option<Rect>)

  /** One geometry command sent to the host. */
  datatype Write = Write(client: ClientId, rect: Rect)

  /** The answer of the visibility query for every window, in tile order. */
  function Visibility(cs: seq<ClientId>, id: ScreenId, d: Driver): (vis: seq<Option<bool>>)
    ensures |vis| == |cs|
    ensures forall i :: 0 <= i < |cs| ==> vis[i] == d.isVisible(cs[i], id)
  {
    seq(|cs|, i requires 0 <= i < |cs| => d.isVisible(cs[i], id))
  }

  /** How many windows answered "visible". */
  function Shown(vis: seq<Option<bool>>): (n: nat)
    ensures n <= |vis|
  {
    if vis == [] then 0
    else (if vis[0] == Some(true) then 1 else 0) + Shown(vis[1..])
  }

  /** The elements at the positions that answered "visible", in order. */
  function ShownOf<T>(xs: seq<T>, vis: seq<Option<bool>>): (r: seq<T>)
    requires |xs| == |vis|
    ensures |r| == Shown(vis)
    ensures forall k :: 0 <= k < |r| ==> r[k] in xs
  {
    if xs == [] then []
    else (if vis[0] == Some(true) then [xs[0]] else []) + ShownOf(xs[1..], vis[1..])
  }

  /** What a pass does to one tile: possibly a new geometry, possibly the
      error flag. */
  datatype Effect = Effect(place: Option<Rect>, fail: bool)

  /** The rectangles an effect vector places, in order. */
  function Placed(es: seq<Effect>): seq<Rect> {
    if es == [] then []
    else (if es[0].place.Some? then [es[0].place.value] else []) + Placed(es[1..])
  }

  /** Hands the layout's rectangles to the visible positions in order, flags
      the positions whose query threw and leaves hidden ones alone. */
  function Effects(vis: seq<Option<bool>>, rects: seq<Rect>): (es: seq<Effect>)
    requires |rects| == Shown(vis)
    ensures |es| == |vis|
    ensures forall i :: 0 <= i < |vis| ==>
      && (es[i].place.Some? <==> vis[i] == Some(true))
      && (es[i].fail <==> vis[i].None?)
    ensures Placed(es) == rects
  {
    if vis == [] then []
    else if vis[0] == Some(true) then
      [Effect(Some(rects[0]), false)] + Effects(vis[1..], rects[1..])
    else
      [Effect(None, vis[0].None?)] + Effects(vis[1..], rects)
  }

  /** One tile after an effect. */
  function Affect(t: Tile, e: Effect): Tile {
    t.(geometry := e.place.GetOr(t.geometry), isError := t.isError || e.fail)
  }

  /** The tiles after an effect vector; windows and order never change. */
  function Apply(tiles: seq<Tile>, es: seq<Effect>): (r: seq<Tile>)
    requires |es| == |tiles|
    ensures |r| == |tiles|
    ensures Clients(r) == Clients(tiles)
    ensures forall i :: 0 <= i < |tiles| ==> r[i] == Affect(tiles[i], es[i])
  {
    seq(|tiles|, i requires 0 <= i < |tiles| => Affect(tiles[i], es[i]))
  }

  /** `a` followed by `b`, as one effect vector: b's geometry wins, errors
      accumulate. */
  function Merge(a: seq<Effect>, b: seq<Effect>): (r: seq<Effect>)
    requires |a| == |b|
    ensures |r| == |a|
  {
    seq(|a|, i requires 0 <= i < |a| =>
      Effect(if b[i].place.Some? then b[i].place else a[i].place, a[i].fail || b[i].fail))
  }

  /** The effect vector that does nothing. */
  function Skips(n: nat): (r: seq<Effect>)
    ensures |r| == n
  {
    seq(n, _ => Effect(None, false))
  }

  /** Applying two effect vectors in turn is applying their merge. */
  lemma ApplyMerge(tiles: seq<Tile>, a: seq<Effect>, b: seq<Effect>)
    requires |a| == |tiles| && |b| == |tiles|
    ensures Apply(Apply(tiles, a), b) == Apply(tiles, Merge(a, b))
  {
  }

  /** An effect vector applied a second time changes nothing. */
  lemma ApplyTwice(tiles: seq<Tile>, es: seq<Effect>)
    requires |es| == |tiles|
    ensures Apply(Apply(tiles, es), es) == Apply(tiles, es)
  {
  }

  /** The empty effect vector leaves the tiles as they are. */
  lemma ApplySkips(tiles: seq<Tile>)
    ensures Apply(tiles, Skips(|tiles|)) == tiles
  {
  }

  /** One write per tile that answered "visible", in tile order, carrying the
      tile's (freshly laid out) geometry. */
  function Commits(tiles: seq<Tile>, vis: seq<Option<bool>>): seq<Write>
    requires |tiles| == |vis|
  {
    if tiles == [] then []
    else
      var head := if vis[0] == Some(true) then [Write(tiles[0].client, tiles[0].geometry)] else [];
      head + Commits(tiles[1..], vis[1..])
  }

  /** Pairs windows with rectangles position by position. */
  function Zip(cs: seq<ClientId>, rects: seq<Rect>): (ws: seq<Write>)
    requires |cs| == |rects|
    ensures |ws| == |cs|
    ensures forall k :: 0 <= k < |cs| ==> ws[k] == Write(cs[k], rects[k])
  {
    if cs == [] then [] else [Write(cs[0], rects[0])] + Zip(cs[1..], rects[1..])
  }

  /** After the visible tiles received the layout's rectangles, committing
      each visible tile's geometry sends the k-th visible window the k-th
      rectangle. */
  lemma {:induction false} CommitsPlaced(tiles: seq<Tile>, vis: seq<Option<bool>>, rects: seq<Rect>)
    requires |tiles| == |vis| && |rects| == Shown(vis)
    ensures Commits(Apply(tiles, Effects(vis, rects)), vis) == Zip(ShownOf(Clients(tiles), vis), rects)
    decreases |vis|
  {
    if vis != [] {
      var es := Effects(vis, rects);
      var laid := Apply(tiles, es);
      var rest := if vis[0] == Some(true) then rects[1..] else rects;
      assert es[1..] == Effects(vis[1..], rest);
      assert laid[1..] == Apply(tiles[1..], es[1..]);
      assert Clients(tiles)[1..] == Clients(tiles[1..]);
      CommitsPlaced(tiles[1..], vis[1..], rest);
      if vis[0] == Some(true) {
        assert laid[0] == tiles[0].(geometry := rects[0]);
      }
    }
  }

  /** A screen after the layout has defaulted its options; a screen with no
      layout is left untouched. */
  function Settle(s: Screen): (r: Screen)
    ensures r.id == s.id && r.layout == s.layout
    ensures s.layout.None? ==> r == s
    ensures s.layout.Some? ==> r.opts == WithDefaults(s.opts)
  {
    if s.layout.None? then s else s.(opts := WithDefaults(s.opts))
  }

  /** Every screen settled. */
  function SettleAll(screens: seq<Screen>): (r: seq<Screen>)
    ensures |r| == |screens|
    ensures forall j :: 0 <= j < |screens| ==> r[j] == Settle(screens[j])
  {
    seq(|screens|, j requires 0 <= j < |screens| => Settle(screens[j]))
  }

  /** The rectangles the screen's layout gives its visible windows. */
  function ScreenRects(cs: seq<ClientId>, s: Screen, d: Driver): (rects: seq<Rect>)
    ensures |rects| == Shown(Visibility(cs, s.id, d))
  {
    var vis := Visibility(cs, s.id, d);
    var area := d.workingArea(s.id);
    LayoutTile(Shown(vis), area.width, area.height, s.opts).rects
  }

  /** What one screen's pass does to the tiles; it depends on the tiles only
      through their windows. */
  function ScreenEffects(cs: seq<ClientId>, s: Screen, d: Driver): (es: seq<Effect>)
    ensures |es| == |cs|
  {
    if s.layout.None? then Skips(|cs|)
    else Effects(Visibility(cs, s.id, d), ScreenRects(cs, s, d))
  }

  /** The writes one screen's pass sends, computed from the windows: none for
      a screen without layout, otherwise the k-th visible window receives the
      k-th rectangle of the layout. */
  function ScreenWrites(cs: seq<ClientId>, s: Screen, d: Driver): seq<Write> {
    if s.layout.None? then []
    else Zip(ShownOf(cs, Visibility(cs, s.id, d)), ScreenRects(cs, s, d))
  }

  /** The outcome of one screen's pass. */
  datatype ScreenOut = ScreenOut(tiles: seq<Tile>, screen: Screen, writes: seq<Write>)

  /** One screen's pass. A screen without layout is skipped. Otherwise every
      tile whose visibility query threw is flagged, the tiles that answered
      "visible" are laid out in tile order, and exactly one write per visible
      tile is sent, in tile order, with the rectangle the layout gave it;
      hidden and failed tiles keep their geometry and get no write. */
  function ScreenPass(tiles: seq<Tile>, s: Screen, d: Driver): (r: ScreenOut)
    ensures r.tiles == Apply(tiles, ScreenEffects(Clients(tiles), s, d))
    ensures r.screen == Settle(s)
    ensures s.layout.None? ==> r == ScreenOut(tiles, s, [])
    ensures s.layout.Some? ==>
      var vis := Visibility(Clients(tiles), s.id, d);
      var rects := ScreenRects(Clients(tiles), s, d);
      && r.writes == Zip(ShownOf(Clients(tiles), vis), rects)
      && r.writes == Commits(r.tiles, vis)
      && (forall i :: 0 <= i < |tiles| ==>
            && r.tiles[i].client == tiles[i].client
            && r.tiles[i].isNew == tiles[i].isNew
            && (r.tiles[i].isError <==> tiles[i].isError || vis[i].None?)
            && (vis[i] != Some(true) ==> r.tiles[i].geometry == tiles[i].geometry))
      && Placed(ScreenEffects(Clients(tiles), s, d)) == rects
  {
    if s.layout.None? then
      ApplySkips(tiles);
      ScreenOut(tiles, s, [])
    else
      var vis := Visibility(Clients(tiles), s.id, d);
      var rects := ScreenRects(Clients(tiles), s, d);
      var laid := Apply(tiles, Effects(vis, rects));
      CommitsPlaced(tiles, vis, rects);
      ScreenOut(laid, Settle(s), Commits(laid, vis))
  }

  /** The outcome of a full pass over all screens. */
  datatype Pass = Pass(tiles: seq<Tile>, screens: seq<Screen>, writes: seq<Write>)

  /** Some screen with a layout could not answer whether `c` is visible. */
  ghost predicate QueryFailed(c: ClientId, screens: seq<Screen>, d: Driver) {
    exists j :: 0 <= j < |screens| && screens[j].layout.Some? && d.isVisible(c, screens[j].id).None?
  }

  /** Some screen with a layout reports `c` as visible. */
  ghost predicate ShownSomewhere(c: ClientId, screens: seq<Screen>, d: Driver) {
    exists j :: 0 <= j < |screens| && screens[j].layout.Some? && d.isVisible(c, screens[j].id) == Some(true)
  }

  /** The failure and visibility predicates split over the first screen. */
  lemma ScreenCons(c: ClientId, screens: seq<Screen>, d: Driver)
    requires screens != []
    ensures QueryFailed(c, screens, d) <==>
      (screens[0].layout.Some? && d.isVisible(c, screens[0].id).None?) || QueryFailed(c, screens[1..], d)
    ensures ShownSomewhere(c, screens, d) <==>
      (screens[0].layout.Some? && d.isVisible(c, screens[0].id) == Some(true)) || ShownSomewhere(c, screens[1..], d)
  {
    assert forall j :: 0 <= j < |screens| - 1 ==> screens[1..][j] == screens[j + 1];
    if QueryFailed(c, screens, d) {
      var j :| 0 <= j < |screens| && screens[j].layout.Some? && d.isVisible(c, screens[j].id).None?;
      if j > 0 {
        assert screens[1..][j - 1] == screens[j];
      }
    }
    if ShownSomewhere(c, screens, d) {
      var j :| 0 <= j < |screens| && screens[j].layout.Some? && d.isVisible(c, screens[j].id) == Some(true);
      if j > 0 {
        assert screens[1..][j - 1] == screens[j];
      }
    }
  }

  /** What the first screen's pass followed by the rest of the pass does to
      each tile, given what the rest of the pass does to the tiles the first
      screen left. */
  lemma PassStep(tiles: seq<Tile>, screens: seq<Screen>, d: Driver, out: seq<Tile>)
    requires screens != []
    requires |out| == |tiles|
    requires forall i :: 0 <= i < |tiles| ==>
      var m := ScreenPass(tiles, screens[0], d).tiles[i];
      && out[i].isNew == m.isNew
      && (out[i].isError <==> m.isError || QueryFailed(m.client, screens[1..], d))
      && (!ShownSomewhere(m.client, screens[1..], d) ==> out[i].geometry == m.geometry)
    ensures forall i :: 0 <= i < |tiles| ==>
      && out[i].isNew == tiles[i].isNew
      && (out[i].isError <==> tiles[i].isError || QueryFailed(tiles[i].client, screens, d))
      && (!ShownSomewhere(tiles[i].client, screens, d) ==> out[i].geometry == tiles[i].geometry)
  {
    var p := ScreenPass(tiles, screens[0], d);
    forall i | 0 <= i < |tiles|
      ensures && out[i].isNew == tiles[i].isNew
        && (out[i].isError <==> tiles[i].isError || QueryFailed(tiles[i].client, screens, d))
        && (!ShownSomewhere(tiles[i].client, screens, d) ==> out[i].geometry == tiles[i].geometry)
    {
      ScreenCons(tiles[i].client, screens, d);
      assert p.tiles[i].client == tiles[i].client;
    }
  }

  /** Passes over the screens in order, each seeing the tiles the previous one
      left. Windows, their order and `isNew` never change; a tile ends up
      flagged exactly when it was flagged before or some screen's visibility
      query for it threw; a tile no screen shows keeps its geometry; every
      screen ends with its options defaulted. The writes are those of each
      screen in screen order, computed from the windows alone. */
  function ArrangeScreens(tiles: seq<Tile>, screens: seq<Screen>, d: Driver): (r: Pass)
    ensures |r.tiles| == |tiles| && Clients(r.tiles) == Clients(tiles)
    ensures r.screens == SettleAll(screens)
    ensures forall i :: 0 <= i < |tiles| ==>
      && r.tiles[i].isNew == tiles[i].isNew
      && (r.tiles[i].isError <==> tiles[i].isError || QueryFailed(tiles[i].client, screens, d))
      && (!ShownSomewhere(tiles[i].client, screens, d) ==> r.tiles[i].geometry == tiles[i].geometry)
    ensures r.writes == AllWrites(Clients(tiles), screens, d)
    decreases |screens|
  {
    if screens == [] then Pass(tiles, [], [])
    else
      var p := ScreenPass(tiles, screens[0], d);
      var rest := ArrangeScreens(p.tiles, screens[1..], d);
      assert Clients(p.tiles) == Clients(tiles);
      assert p.writes == ScreenWrites(Clients(tiles), screens[0], d);
      PassStep(tiles, screens, d, rest.tiles);
      Pass(rest.tiles, [p.screen] + rest.screens, p.writes + rest.writes)
  }

  /** The writes of passing over `screens`, computed from the windows. */
  function AllWrites(cs: seq<ClientId>, screens: seq<Screen>, d: Driver): seq<Write>
    decreases |screens|
  {
    if screens == [] then []
    else ScreenWrites(cs, screens[0], d) + AllWrites(cs, screens[1..], d)
  }

  /** The merged effect of passing over `screens`, computed from the windows. */
  function TotalEffects(cs: seq<ClientId>, screens: seq<Screen>, d: Driver): (es: seq<Effect>)
    ensures |es| == |cs|
    decreases |screens|
  {
    if screens == [] then Skips(|cs|)
    else Merge(ScreenEffects(cs, screens[0], d), TotalEffects(cs, screens[1..], d))
  }

  /** A full pass applies one effect vector that depends only on the windows
      and the screens. */
  lemma {:induction false} ArrangeClosedForm(tiles: seq<Tile>, screens: seq<Screen>, d: Driver)
    ensures ArrangeScreens(tiles, screens, d).tiles == Apply(tiles, TotalEffects(Clients(tiles), screens, d))
    decreases |screens|
  {
    if screens == [] {
      ApplySkips(tiles);
    } else {
      var e0 := ScreenEffects(Clients(tiles), screens[0], d);
      var t1 := ScreenPass(tiles, screens[0], d).tiles;
      ArrangeClosedForm(t1, screens[1..], d);
      ApplyMerge(tiles, e0, TotalEffects(Clients(tiles), screens[1..], d));
    }
  }

  /** Settling a screen does not change what its pass does. */
  lemma ScreenEffectsSettled(cs: seq<ClientId>, s: Screen, d: Driver)
    ensures ScreenEffects(cs, Settle(s), d) == ScreenEffects(cs, s, d)
    ensures ScreenRects(cs, Settle(s), d) == ScreenRects(cs, s, d)
  {
    var vis := Visibility(cs, s.id, d);
    var area := d.workingArea(s.id);
    LayoutSettled(Shown(vis), area.width, area.height, s.opts);
  }

  /** Settled screens produce the same merged effect. */
  lemma {:induction false} TotalEffectsSettled(cs: seq<ClientId>, screens: seq<Screen>, d: Driver)
    ensures TotalEffects(cs, SettleAll(screens), d) == TotalEffects(cs, screens, d)
    decreases |screens|
  {
    if screens != [] {
      assert SettleAll(screens)[1..] == SettleAll(screens[1..]);
      ScreenEffectsSettled(cs, screens[0], d);
      TotalEffectsSettled(cs, screens[1..], d);
    }
  }

  /** The writes of a full pass depend only on the windows and on the screens
      up to settling. */
  lemma {:induction false} ArrangeWritesStable(t: seq<Tile>, u: seq<Tile>, screens: seq<Screen>, d: Driver)
    requires Clients(t) == Clients(u)
    ensures ArrangeScreens(u, SettleAll(screens), d).writes == ArrangeScreens(t, screens, d).writes
    decreases |screens|
  {
    if screens != [] {
      var s := screens[0];
      assert SettleAll(screens)[0] == Settle(s);
      assert SettleAll(screens)[1..] == SettleAll(screens[1..]);
      ScreenEffectsSettled(Clients(t), s, d);
      var p := ScreenPass(t, s, d);
      var q := ScreenPass(u, Settle(s), d);
      assert q.writes == p.writes;
      ArrangeWritesStable(p.tiles, q.tiles, screens[1..], d);
    }
  }

  /** Settling twice is settling once. */
  lemma SettleAllTwice(screens: seq<Screen>)
    ensures SettleAll(SettleAll(screens)) == SettleAll(screens)
  {
    forall j | 0 <= j < |screens|
      ensures Settle(Settle(screens[j])) == Settle(screens[j])
    {
      DefaultsSettle(screens[j].opts);
    }
  }

  /** The outcome of reconciling one window: the writes sent and whether the
      geometry query threw, which ends the reconciliation. */
  datatype Reconcile = Reconcile(writes: seq<Write>, aborted: bool)

  /** Whether a tile belongs to window `c` and has drifted from the
      host-reported geometry `g`. */
  function Drifted(c: ClientId, g: Rect): Tile -> bool {
    (t: Tile) => t.client == c && t.geometry != g
  }

  /** One write per tile, in order, re-sending the tile's own geometry to its
      window. */
  function Restores(ts: seq<Tile>): (ws: seq<Write>)
    ensures |ws| == |ts|
    ensures forall k :: 0 <= k < |ts| ==> ws[k] == Write(ts[k].client, ts[k].geometry)
  {
    if ts == [] then [] else [Write(ts[0].client, ts[0].geometry)] + Restores(ts[1..])
  }

  /** The restoring writes for the drifted tiles of `c` go to `c` only, number
      at most the tiles, and carry exactly the geometries of `c`'s tiles that
      differ from `g`. */
  lemma DriftedWrites(tiles: seq<Tile>, c: ClientId, g: Rect)
    ensures var ws := Restores(Keep(tiles, Drifted(c, g)));
      && |ws| <= |tiles|
      && (forall k :: 0 <= k < |ws| ==> ws[k].client == c)
      && forall h :: Write(c, h) in ws <==> h != g && exists t :: t in tiles && t.client == c && t.geometry == h
  {
    var ts := Keep(tiles, Drifted(c, g));
    var ws := Restores(ts);
    forall h | Write(c, h) in ws
      ensures h != g && exists t :: t in tiles && t.client == c && t.geometry == h
    {
      var k :| 0 <= k < |ws| && ws[k] == Write(c, h);
      assert ts[k] in tiles && Drifted(c, g)(ts[k]);
    }
    forall h | h != g && exists t :: t in tiles && t.client == c && t.geometry == h
      ensures Write(c, h) in ws
    {
      var t :| t in tiles && t.client == c && t.geometry == h;
      var i :| 0 <= i < |tiles| && tiles[i] == t;
      assert Drifted(c, g)(tiles[i]);
      var k :| 0 <= k < |ts| && ts[k] == t;
      assert ws[k] == Write(c, h);
    }
  }

  /** Each restoring write for a drifted tile of `c` targets `c`, differs
      from `g` and carries some tile's geometry; every drifted tile of `c`
      has its write. */
  lemma DriftedRestored(tiles: seq<Tile>, c: ClientId, g: Rect)
    ensures var ws := Restores(Keep(tiles, Drifted(c, g)));
      && (forall k :: 0 <= k < |ws| ==>
            && ws[k].client == c && ws[k].rect != g
            && exists t :: t in tiles && t.client == c && t.geometry == ws[k].rect)
      && forall t :: t in tiles && t.client == c && t.geometry != g ==> Write(c, t.geometry) in ws
  {
    var ts := Keep(tiles, Drifted(c, g));
    var ws := Restores(ts);
    forall k | 0 <= k < |ws|
      ensures ws[k].client == c && ws[k].rect != g
      ensures exists t :: t in tiles && t.client == c && t.geometry == ws[k].rect
    {
      assert ts[k] in tiles && Drifted(c, g)(ts[k]);
    }
    forall t | t in tiles && t.client == c && t.geometry != g
      ensures Write(c, t.geometry) in ws
    {
      var i :| 0 <= i < |tiles| && tiles[i] == t;
      assert Drifted(c, g)(tiles[i]);
      var k :| 0 <= k < |ts| && ts[k] == t;
      assert ws[k] == Write(c, t.geometry);
    }
  }

  /** Restores the engine's geometry on every tile of window `c` whose
      host-reported geometry differs from it in any field. The host's answer
      is a snapshot taken for this reconciliation. Nothing about the tiles
      changes; only writes are sent. */
  function ArrangeClient(tiles: seq<Tile>, c: ClientId, d: Driver): (r: Reconcile)
    ensures r.aborted <==> d.geometryOf(c).None? && c in Clients(tiles)
    ensures d.geometryOf(c).None? ==> r.writes == []
    ensures |r.writes| <= |tiles|
    ensures forall k :: 0 <= k < |r.writes| ==> r.writes[k].client == c
    ensures d.geometryOf(c).Some? ==> forall g ::
      Write(c, g) in r.writes <==>
        g != d.geometryOf(c).value && exists t :: t in tiles && t.client == c && t.geometry == g
    ensures d.geometryOf(c).Some? ==> r.writes == Restores(Keep(tiles, Drifted(c, d.geometryOf(c).value)))
  {
    var r :=
      if tiles == [] then Reconcile([], false)
      else
        assert Clients(tiles) == [tiles[0].client] + Clients(tiles[1..]);
        var rest := ArrangeClient(tiles[1..], c, d);
        if tiles[0].client != c then rest
        else match d.geometryOf(c)
          case None => Reconcile([], true)
          case Some(g) =>
            var ks := Keep(tiles[1..], Drifted(c, g));
            if g == tiles[0].geometry then
              assert Keep(tiles, Drifted(c, g)) == ks;
              rest
            else
              assert Keep(tiles, Drifted(c, g)) == [tiles[0]] + ks;
              assert ([tiles[0]] + ks)[1..] == ks;
              Reconcile([Write(c, tiles[0].geometry)] + rest.writes, rest.aborted);
    match d.geometryOf(c)
    case None => r
    case Some(g) => DriftedWrites(tiles, c, g); r
  }

  /** A window whose every tile already has the host-reported geometry gets
      no write. */
  lemma ArrangeClientInSync(tiles: seq<Tile>, c: ClientId, d: Driver)
    requires forall i :: 0 <= i < |tiles| && tiles[i].client == c ==> d.geometryOf(c) == Some(tiles[i].geometry)
    ensures ArrangeClient(tiles, c, d) == Reconcile([], false)
  {
    var r := ArrangeClient(tiles, c, d);
    if c in Clients(tiles) {
      var i :| 0 <= i < |tiles| && Clients(tiles)[i] == c;
      assert d.geometryOf(c).Some?;
    }
  }
}

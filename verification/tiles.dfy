/** The engine's data model: tiles (one per managed window) and screens
    (one per tiling target). */
module Tiles {
  import opened Wrappers
  import opened Geometry

  /** Identity handle of a host window. The engine never creates or destroys
      windows; it only compares handles. */
  type ClientId = nat

  /** Identifier of a screen as the host numbers it. */
  type ScreenId = int

  /** Placement record of one managed window: its last computed geometry and
      the two one-way flags `isNew` and `isError`. */
  datatype Tile = Tile(client: ClientId, isNew: bool, isError: bool, geometry: Rect)

  /** A freshly managed window: new, not errored, zero geometry. */
  function NewTile(client: ClientId): (t: Tile)
    ensures t.client == client
    ensures t.isNew && !t.isError
    ensures t.geometry == Rect(0, 0, 0, 0)
  {
    Tile(client, true, false, Zero)
  }

  /** The layout a screen may carry. The host could store any layout function;
      the only one that exists is the master-stack layout. */
  datatype LayoutKind = MasterStackLayout

  /** The layout option bag. `ratio` is the percentage of the area width given
      to the stack column and `nmaster` the number of master tiles; 0 stands
      for an option that is absent or falsy. */
  datatype LayoutOpts = LayoutOpts(ratio: nat, nmaster: nat)

  /** The empty option bag `{}` a screen starts with. */
  const NoOpts := LayoutOpts(0, 0)

  /** A tiling target. A screen with no layout is left alone by arrangement. */
  datatype Screen = Screen(id: ScreenId, layout: Option<LayoutKind>, opts: LayoutOpts)

  /** A freshly added screen: master-stack layout, empty options. */
  function NewScreen(id: ScreenId): (s: Screen)
    ensures s.id == id
    ensures s.layout == Some(MasterStackLayout)
    ensures s.opts.ratio == 0 && s.opts.nmaster == 0
  {
    Screen(id, Some(MasterStackLayout), NoOpts)
  }

  /** The window handles of `tiles`, in tile order. */
  function Clients(tiles: seq<Tile>): (cs: seq<ClientId>)
    ensures |cs| == |tiles|
    ensures forall i :: 0 <= i < |tiles| ==> cs[i] == tiles[i].client
  {
    seq(|tiles|, i requires 0 <= i < |tiles| => tiles[i].client)
  }
}

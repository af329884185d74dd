/** The tiling engine: the ordered tiles, the screens, and the operations the
    host calls when windows, screens or the user's commands change. */
module Engine {
  import opened Wrappers
  import opened Geometry
  import opened Tiles
  import opened Seqs
  import opened Arrangement
  import opened Commands

  /** The engine's whole state. Tile order is the master/stack order. */
  datatype Engine = Engine(tiles: seq<Tile>, screens: seq<Screen>)

  /** The outcome of one engine operation: the new state, the geometry writes
      sent to the host in order, and the window made active, if any. */
  datatype Step = Step(engine: Engine, writes: seq<Write>, activate: Option<ClientId>)

  /** The user commands the engine reacts to. */
  datatype UserInput = Up | Down | ShiftUp | ShiftDown

  /** The signed step each command moves by. */
  function InputStep(input: UserInput): int {
    match input
    case Up => -1
    case Down => 1
    case ShiftUp => -1
    case ShiftDown => 1
  }

  /** A full arrangement. Tiles keep their windows, order and freshness; the
      screens end with their options defaulted; nothing is activated. The
      geometry the tiles end with and the writes sent follow from the windows
      and the screens alone. */
  function Arrange(e: Engine, d: Driver): (r: Step)
    ensures Clients(r.engine.tiles) == Clients(e.tiles)
    ensures forall i :: 0 <= i < |e.tiles| ==>
      && r.engine.tiles[i].isNew == e.tiles[i].isNew
      && (r.engine.tiles[i].isError <==> e.tiles[i].isError || QueryFailed(e.tiles[i].client, e.screens, d))
    ensures r.engine.screens == SettleAll(e.screens)
    ensures r.activate.None?
    ensures r.engine.tiles == Apply(e.tiles, TotalEffects(Clients(e.tiles), e.screens, d))
    ensures r.writes == AllWrites(Clients(e.tiles), e.screens, d)
  {
    ArrangeClosedForm(e.tiles, e.screens, d);
    var p := ArrangeScreens(e.tiles, e.screens, d);
    Step(Engine(p.tiles, p.screens), p.writes, None)
  }

  /** Arranging an arranged engine again changes nothing and sends exactly
      the same writes. */
  lemma ArrangeIdempotent(e: Engine, d: Driver)
    ensures Arrange(Arrange(e, d).engine, d) == Arrange(e, d)
  {
    var p := ArrangeScreens(e.tiles, e.screens, d);
    var q := ArrangeScreens(p.tiles, p.screens, d);
    var es := TotalEffects(Clients(e.tiles), e.screens, d);
    ArrangeClosedForm(e.tiles, e.screens, d);
    ArrangeClosedForm(p.tiles, p.screens, d);
    TotalEffectsSettled(Clients(e.tiles), e.screens, d);
    ApplyTwice(e.tiles, es);
    assert q.tiles == p.tiles;
    SettleAllTwice(e.screens);
    ArrangeWritesStable(e.tiles, p.tiles, e.screens, d);
  }

  /** Starts managing window `c`: a fresh tile is appended after all existing
      tiles and everything is arranged. The new tile stays fresh; it is
      flagged only if a visibility query for it threw, and keeps the zero
      geometry if no screen shows it. */
  function ManageClient(e: Engine, c: ClientId, d: Driver): (r: Step)
    ensures Clients(r.engine.tiles) == Clients(e.tiles) + [c]
    ensures r.engine.tiles[|e.tiles|].isNew
    ensures r.engine.tiles[|e.tiles|].isError <==> QueryFailed(c, e.screens, d)
    ensures !ShownSomewhere(c, e.screens, d) ==> r.engine.tiles[|e.tiles|].geometry == Zero
    ensures forall i :: 0 <= i < |e.tiles| ==>
      && r.engine.tiles[i].isNew == e.tiles[i].isNew
      && (r.engine.tiles[i].isError <==> e.tiles[i].isError || QueryFailed(e.tiles[i].client, e.screens, d))
    ensures r.engine.screens == SettleAll(e.screens)
    ensures r.engine.tiles == Apply(e.tiles + [NewTile(c)], TotalEffects(Clients(e.tiles) + [c], e.screens, d))
    ensures r.writes == AllWrites(Clients(e.tiles) + [c], e.screens, d)
    ensures r.activate.None?
  {
    var pushed := e.tiles + [NewTile(c)];
    assert Clients(pushed) == Clients(e.tiles) + [c];
    Arrange(e.(tiles := pushed), d)
  }

  /** The tiles kept when window `c` is unmanaged: every tile of another
      window that is not flagged as errored, in the original order. */
  function Unmanaged(tiles: seq<Tile>, c: ClientId): (r: seq<Tile>)
    ensures forall i :: 0 <= i < |r| ==> r[i] in tiles && r[i].client != c && !r[i].isError
    ensures forall i :: 0 <= i < |tiles| && tiles[i].client != c && !tiles[i].isError ==> tiles[i] in r
  {
    Keep(tiles, (t: Tile) => t.client != c && !t.isError)
  }

  /** Unmanaging keeps the relative order of the surviving tiles. */
  lemma UnmanagedOrder(a: seq<Tile>, b: seq<Tile>, c: ClientId)
    ensures Unmanaged(a + b, c) == Unmanaged(a, c) + Unmanaged(b, c)
  {
    KeepAppend(a, b, (t: Tile) => t.client != c && !t.isError);
  }

  /** Managing a new window and unmanaging it again, with no errored tile
      around, gives back the original tiles. */
  lemma ManageThenUnmanage(tiles: seq<Tile>, c: ClientId)
    requires forall i :: 0 <= i < |tiles| ==> tiles[i].client != c && !tiles[i].isError
    ensures Unmanaged(tiles + [NewTile(c)], c) == tiles
  {
    var p := (t: Tile) => t.client != c && !t.isError;
    KeepAppend(tiles, [NewTile(c)], p);
    KeepAll(tiles, p);
  }

  /** A tile whose visibility query threw during an arrangement is flagged,
      and the next unmanage of any window drops it. */
  lemma FailedTilePurged(e: Engine, d: Driver, i: nat, c: ClientId)
    requires i < |e.tiles| && QueryFailed(e.tiles[i].client, e.screens, d)
    ensures Arrange(e, d).engine.tiles[i].isError
    ensures Arrange(e, d).engine.tiles[i] !in Unmanaged(Arrange(e, d).engine.tiles, c)
  {
  }

  /** Stops managing window `c`: its tiles and every errored tile are dropped,
      then everything is arranged. No tile of `c` survives. */
  function UnmanageClient(e: Engine, c: ClientId, d: Driver): (r: Step)
    ensures Clients(r.engine.tiles) == Clients(Unmanaged(e.tiles, c))
    ensures forall i :: 0 <= i < |r.engine.tiles| ==> r.engine.tiles[i].client != c
    ensures r.engine.screens == SettleAll(e.screens)
    ensures r.engine.tiles == Apply(Unmanaged(e.tiles, c), TotalEffects(Clients(Unmanaged(e.tiles, c)), e.screens, d))
    ensures r.writes == AllWrites(Clients(Unmanaged(e.tiles, c)), e.screens, d)
    ensures r.activate.None?
  {
    var kept := Unmanaged(e.tiles, c);
    Arrange(e.(tiles := kept), d)
  }

  /** Adds a screen with the master-stack layout and empty options after the
      existing ones; tiles are untouched and nothing is arranged. */
  function AddScreen(e: Engine, id: ScreenId): (r: Engine)
    ensures r.tiles == e.tiles
    ensures |r.screens| == |e.screens| + 1
    ensures r.screens[..|e.screens|] == e.screens
    ensures r.screens[|e.screens|] == Screen(id, Some(MasterStackLayout), NoOpts)
  {
    e.(screens := e.screens + [NewScreen(id)])
  }

  /** Removes every screen with identifier `id`, keeping the others in order;
      tiles are untouched. */
  function RemoveScreen(e: Engine, id: ScreenId): (r: Engine)
    ensures r.tiles == e.tiles
    ensures forall j :: 0 <= j < |r.screens| ==> r.screens[j] in e.screens && r.screens[j].id != id
    ensures forall j :: 0 <= j < |e.screens| && e.screens[j].id != id ==> e.screens[j] in r.screens
  {
    e.(screens := Keep(e.screens, (s: Screen) => s.id != id))
  }

  /** Removing an identifier no screen has is a no-op. */
  lemma RemoveUnknownScreen(e: Engine, id: ScreenId)
    requires forall j :: 0 <= j < |e.screens| ==> e.screens[j].id != id
    ensures RemoveScreen(e, id) == e
  {
    KeepAll(e.screens, (s: Screen) => s.id != id);
  }

  /** Removing a screen just added is removing it from the screens before. */
  lemma AddThenRemoveScreen(e: Engine, id: ScreenId)
    ensures RemoveScreen(AddScreen(e, id), id) == RemoveScreen(e, id)
  {
    var p := (s: Screen) => s.id != id;
    KeepAppend(e.screens, [NewScreen(id)], p);
    assert Keep([NewScreen(id)], p) == [];
  }

  /** Reconciles window `c` after the host reported a geometry change. The
      engine state is unchanged, and each drifted tile of `c` gets exactly
      one write restoring its geometry. A geometry query that throws escapes
      to the caller, which the model reports as `None`. */
  function ReconcileClient(e: Engine, c: ClientId, d: Driver): (r: Option<Step>)
    ensures r.None? <==> d.geometryOf(c).None? && c in Clients(e.tiles)
    ensures r.Some? ==> r.value.engine == e && r.value.activate.None?
    ensures r.Some? ==> forall k :: 0 <= k < |r.value.writes| ==>
      && r.value.writes[k].client == c
      && Some(r.value.writes[k].rect) != d.geometryOf(c)
      && exists t :: t in e.tiles && t.client == c && t.geometry == r.value.writes[k].rect
    ensures d.geometryOf(c).Some? ==> r.Some? && forall t ::
      t in e.tiles && t.client == c && t.geometry != d.geometryOf(c).value ==> Write(c, t.geometry) in r.value.writes
    ensures d.geometryOf(c).Some? ==> r.Some? && |r.value.writes| == |Keep(e.tiles, Drifted(c, d.geometryOf(c).value))|
    ensures d.geometryOf(c).Some? ==> r.Some? && r.value.writes == Restores(Keep(e.tiles, Drifted(c, d.geometryOf(c).value)))
  {
    var rc := ArrangeClient(e.tiles, c, d);
    if rc.aborted then None
    else
      match d.geometryOf(c)
      case None => Some(Step(e, rc.writes, None))
      case Some(g) =>
        DriftedRestored(e.tiles, c, g);
        Some(Step(e, rc.writes, None))
  }

  /** Dispatches a user command given the index of the current tile. Focus
      commands leave the tile order alone and activate the clamped neighbour;
      move commands reorder the tiles by the clamped adjacent-swap move and
      activate nothing. Either way the engine is arranged afterwards. */
  function HandleUserInput(e: Engine, input: UserInput, current: Option<nat>, d: Driver): (r: Step)
    requires current.Some? ==> current.value < |e.tiles|
    ensures (input.Up? || input.Down?) ==>
      && Clients(r.engine.tiles) == Clients(e.tiles)
      && r.activate == MoveFocus(e.tiles, current, InputStep(input))
    ensures (input.ShiftUp? || input.ShiftDown?) ==>
      && r.activate.None?
      && Clients(r.engine.tiles) == Clients(MoveTile(e.tiles, current, InputStep(input)))
    ensures |r.engine.tiles| == |e.tiles|
    ensures r.engine.screens == SettleAll(e.screens)
    ensures (input.Up? || input.Down?) ==>
      r.engine == Arrange(e, d).engine && r.writes == Arrange(e, d).writes
    ensures (input.ShiftUp? || input.ShiftDown?) ==>
      r == Arrange(e.(tiles := MoveTile(e.tiles, current, InputStep(input))), d)
  {
    match input
    case Up | Down =>
      Arrange(e, d).(activate := MoveFocus(e.tiles, current, InputStep(input)))
    case ShiftUp | ShiftDown =>
      Arrange(e.(tiles := MoveTile(e.tiles, current, InputStep(input))), d)
  }
}

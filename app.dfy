/**
  The click handler of static/js/main.js: it resolves the clicked tile,
  toggles `selectedTileId`, hands the new selection to the bottom panel and
  redraws the map with it.
*/
module App {
  import opened Common
  import opened Draw

  /**
    The selection rule: no tile, or the tile already selected, clears the
    selection; any other tile becomes the selection.
  */
  function Toggle(selected: Option<int>, tile: Option<Hex>): (next: Option<int>)
    ensures next.Some? <==> tile.Some? && selected != Some(tile.value.id)
    ensures next.Some? ==> next.value == tile.value.id
  {
    if tile.None? || Some(tile.value.id) == selected then None else Some(tile.value.id)
  }

  /** The tile the bottom panel is given: the newly selected one, or null. */
  function PanelTile(next: Option<int>, tile: Option<Hex>): (shown: Option<Hex>)
    ensures shown.Some? <==> next.Some?
    ensures shown.Some? ==> tile.Some? && shown == tile && shown.value.id == next.value
    requires next.Some? ==> tile.Some? && next.value == tile.value.id
  {
    if next.None? then None else tile
  }

  /** What one redraw adds to the context's calls: nothing without tiles or canvas, else a clear and the map. */
  function RedrawCalls(hs: seq<Hex>, selectedId: Option<int>, canvas: Option<Canvas>): (calls: seq<DrawCall>)
    ensures hs == [] || canvas.None? ==> calls == []
    ensures hs != [] && canvas.Some? ==>
              |calls| == 1 + |hs| && calls[0] == ClearRect(canvas.value.width, canvas.value.height)
  {
    if hs == [] || canvas.None? then []
    else
      var c := canvas.value;
      [ClearRect(c.width, c.height)] + MapCalls(hs, c.width as real / 2.0, c.height as real / 2.0, HexSize(c), selectedId)
  }

  /** The tiles after one redraw: placed around the canvas middle, or untouched when nothing is drawn. */
  function RedrawnTiles(hs: seq<Hex>, canvas: Option<Canvas>): (after: seq<Hex>)
    ensures hs == [] || canvas.None? ==> after == hs
    ensures hs != [] && canvas.Some? ==>
              after == Placed(hs, canvas.value.width as real / 2.0, canvas.value.height as real / 2.0, HexSize(canvas.value))
  {
    if hs == [] || canvas.None? then hs
    else Placed(hs, canvas.value.width as real / 2.0, canvas.value.height as real / 2.0, HexSize(canvas.value))
  }

  /** The hex size cached after one redraw. */
  function CachedSize(hs: seq<Hex>, canvas: Option<Canvas>, before: Option<real>): (after: Option<real>)
    ensures hs == [] || canvas.None? ==> after == before
    ensures hs != [] && canvas.Some? ==> after == Some(HexSize(canvas.value))
  {
    if hs == [] || canvas.None? then before else Some(HexSize(canvas.value))
  }

  /** The page state main.js keeps: the tile list, the selection, and the calls made to the bottom panel. */
  class Client {
    var hexes: array<Hex>
    var selectedTileId: Option<int>
    /** The arguments of `updateBottomPanel`, one per call, in order. */
    var panel: seq<Option<Hex>>
    const view: View

    constructor (view: View)
      ensures hexes.Length == 0 && fresh(hexes)
      ensures selectedTileId.None? && panel == [] && this.view == view
    {
      hexes := new Hex[0];
      selectedTileId := None;
      panel := [];
      this.view := view;
    }

    /**
      The body of the click handler once the tile is resolved: the selection
      toggles, the panel is given the new selection, and the map is redrawn
      exactly once with it.
    */
    method Select(tile: Option<Hex>, canvas: Option<Canvas>)
      modifies this, view, view.ctx, hexes
      ensures selectedTileId == Toggle(old(selectedTileId), tile)
      ensures panel == old(panel) + [PanelTile(selectedTileId, tile)]
      ensures view.ctx.calls == old(view.ctx.calls) + RedrawCalls(old(hexes[..]), selectedTileId, canvas)
      ensures hexes == old(hexes) && hexes[..] == RedrawnTiles(old(hexes[..]), canvas)
      ensures view.currentHexSettings == CachedSize(old(hexes[..]), canvas, old(view.currentHexSettings))
    {
      if tile.None? || Some(tile.value.id) == selectedTileId {
        selectedTileId := None;
        panel := panel + [None];
      } else {
        selectedTileId := Some(tile.value.id);
        panel := panel + [tile];
      }
      view.RefreshView(hexes, selectedTileId, canvas);
    }

    /**
      The click handler as written: it calls `getTileFromClick(e)` without the
      tile list, which therefore never finds a tile, so every click clears
      the selection and shows an empty panel. It still redraws once.
    */
    method OnClick(event: Pointer, canvas: Option<Canvas>)
      modifies this, view, view.ctx, hexes
      ensures selectedTileId.None?
      ensures panel == old(panel) + [None]
      ensures view.ctx.calls == old(view.ctx.calls) + RedrawCalls(old(hexes[..]), None, canvas)
      ensures hexes == old(hexes) && hexes[..] == RedrawnTiles(old(hexes[..]), canvas)
      ensures view.currentHexSettings == CachedSize(old(hexes[..]), canvas, old(view.currentHexSettings))
    {
      var tile := view.GetTileFromClick(event, null, canvas);
      Select(tile, canvas);
    }

    /**
      The click handler with the tile list passed to the hit test: the
      selection toggles on the tile under the click.
    */
    method OnClickIntended(event: Pointer, canvas: Option<Canvas>)
      modifies this, view, view.ctx, hexes
      ensures var resolved := if canvas.None? || canvas.value.rect.width == 0.0 || canvas.value.rect.height == 0.0 then None
                              else ClickTarget(old(hexes[..]), ClickPoint(event, canvas.value), HitSize(old(view.currentHexSettings)));
              selectedTileId == Toggle(old(selectedTileId), resolved) &&
              panel == old(panel) + [PanelTile(selectedTileId, resolved)]
      ensures view.ctx.calls == old(view.ctx.calls) + RedrawCalls(old(hexes[..]), selectedTileId, canvas)
      ensures hexes == old(hexes) && hexes[..] == RedrawnTiles(old(hexes[..]), canvas)
      ensures view.currentHexSettings == CachedSize(old(hexes[..]), canvas, old(view.currentHexSettings))
    {
      var tile := view.GetTileFromClick(event, hexes, canvas);
      Select(tile, canvas);
    }
  }

  /**
    With the list passed, clicking where a drawn tile is shown selects it,
    the redraw leaves it where it was, and a second click on the same spot
    clears the selection again.
  */
  lemma {:induction false} ClickSelectsThenDeselects(hs: seq<Hex>, c: Canvas, k: nat)
    requires c.width != 0 && c.height != 0 && c.rect.width != 0.0 && c.rect.height != 0.0
    requires DistinctCells(hs) && k < |hs|
    ensures var size := HexSize(c);
            var cx, cy := c.width as real / 2.0, c.height as real / 2.0;
            var placed := Placed(hs, cx, cy, size);
            var click := ClickPoint(ScreenOf(placed[k].pos.value, c), c);
            var first := Toggle(None, ClickTarget(placed, click, HitSize(Some(size))));
            first == Some(hs[k].id) &&
            Placed(placed, cx, cy, size) == placed &&
            Toggle(first, ClickTarget(Placed(placed, cx, cy, size), click, HitSize(Some(size)))) == None
  {
    var size := HexSize(c);
    var cx, cy := c.width as real / 2.0, c.height as real / 2.0;
    RedrawThenClick(hs, c, k);
    RedrawKeepsPositions(hs, cx, cy, size);
  }
}

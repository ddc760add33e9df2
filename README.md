# Hex energy game: game rules, map view and tile selection

The game gives a player a hexagonal map of terrain tiles. The player starts
with an energy counter and an environment bar. The centre tile can be bought
first. Buying a tile makes its locked neighbours buyable. Buildings go on
tiles and can be upgraded. Every game tick adds each building's production to
the energy counter and its environmental cost to the environment bar.

The browser client draws the map on a canvas. Each tile is coloured by its
terrain and its status. A click picks the first tile whose drawn centre lies
within the hit radius, and that tile becomes the selection, or stops being it.

The model has five modules:

- `Common` (common.dfy) holds `Option`, `Max` and `Abs`.
- `HexGrid` (hexgrid.dfy) covers the axial grid:
  - the six neighbour directions;
  - the order in which the map builder visits the cells of each ring;
  - the proofs that this order lists 1 + 3n(n+1) distinct cells, ring by ring;
  - the coordinate-to-id dictionary built alongside the tile list.
- `Game` (game.py) is the `Player` state machine. It is a class whose methods
  update its fields in place:
  - energy, environment bar and purchase counter;
  - tile list, coordinate dictionary and building catalog;
  - the upgrade price, which is a given function.

  Each method states the player's whole new state (`State()`) in terms of the
  old one, and also the error paths Python takes part way through an
  operation.
- `Draw` (static/js/draw.js) covers the view:
  - fallback colours;
  - the projection of cells to pixels, with the write-back of each centre onto
    its tile record;
  - the redraw, which caches the hex size;
  - the hit test.

  The canvas context is a class that records the calls made on it.
- `App` (static/js/main.js) is the click handler and its selection toggle.

## Model

| member | source | states |
|---|---|---|
| HexGrid.CellStep | game.py:72-79 | one step in a side's direction from the j-th cell of that side reaches its (j+1)-th cell |
| HexGrid.CellCorner | game.py:72-79 | the last step of one side ends where the next side starts |
| HexGrid.CellOnRing | game.py:69-79 | every cell visited in ring k is at hex distance max(\|q\|,\|r\|,\|q+r\|) = k and lies on the side being walked |
| HexGrid.SideFacts | game.py:72-79 | the `radius` cells of one side are distinct and all on ring `radius`, on that side |
| HexGrid.RingPrefixFacts | game.py:72-79 | the first d sides of ring k hold d·k distinct cells, all at distance k |
| HexGrid.RingFacts | game.py:69-79 | ring k holds 6k distinct cells, all at distance k |
| HexGrid.SpiralFacts | game.py:60-81 | the cells of an n-ring map number 1 + 3n(n+1); they start at the centre and are pairwise distinct; a cell at distance d sits in ring d's block of indices |
| HexGrid.IndexMapSound | game.py:66 | the dictionary filled by `coord_to_id[c] = i` has exactly the listed cells as keys, and each key maps to an index holding that cell |
| HexGrid.IndexMapInverts | game.py:75 | for distinct cells the dictionary maps every cell back to its own index |
| Game.RoundHalf | game.py:119 | Python's `round(n / 2)`: within one half of n/2, and ties go to the even integer |
| Game.RoundHalfMonotone | game.py:161 | rounding keeps order |
| Game.PyIndex | game.py:112 | which element `tiles[i]` reaches, counting negative indices from the end, or an IndexError outside -len ≤ i < len |
| Game.ShippedBuildPrice | game.py:119 | with E_buy_cost = 100 the building price is exactly 100 + 50·nb |
| Game.ShippedDurability | game.py:147 | with durability 100 a building's durability at level lv is 100 + 50·lv |
| Game.UnlockStep | game.py:83-105 | keeps ids, coordinates and terrain; changes only locked tiles, and only to buyable; changes a tile exactly when, before the call, it was locked and had a bought neighbour on the map |
| Game.UnlockIdempotent | game.py:83-105 | a second unlock pass changes nothing |
| Game.ProductionNonNegative | game.py:154-166 | with non-negative E_prod a tick's energy gain is never negative |
| Game.NoBuildingsNoProduction | game.py:154-166 | a map without buildings adds no energy and no environment cost |
| Game.UpgradeKeepsGain | game.py:144-161 | raising a building's level never lowers its energy production |
| Game.AppendLocked | game.py:74-76 | appending a new locked tile with the next id, and recording it in the dictionary, extends the coordinate list and the dictionary by that tile alone |
| Game.SpiralTiles | game.py:60-81 | a tile list built as the spiral is `InitialMap`: 1 + 3n(n+1) tiles, the centre first, distinct coordinates, each tile in its ring's block, and a dictionary that inverts the list |
| Game.Player.AppendSide | game.py:73-79 | walking `radius` steps along one side appends exactly that side's cells, as locked tiles with consecutive ids, and ends at the side's last cell |
| Game.Player.AppendRing | game.py:70-79 | walking the six sides of ring `radius` from (-radius, radius) extends the spiral of radius - 1 rings to the spiral of radius rings |
| Game.Player.InitTiles | game.py:60-81 | `InitialMap`: 1 + 3n(n+1) tiles with distinct coordinates. The centre is tile 0 and the only buyable one; all others are locked. Each id equals its list index. Every tile lies at distance ≤ n, inside its ring's block of ids. The dictionary maps every tile's (q, r) to its id and nothing else |
| Game.Player.constructor | game.py:5-57 | the invariant holds; energy, bar and tile price are as given; no tiles bought; the shipped catalog and preferences; the map is `InitialMap` for the given ring count (none for a negative count) |
| Game.Player.GetTile | game.py:169-172 | a tile exactly for 0 ≤ id < len (no negative indexing), and it is the tile with that id |
| Game.Player.UpdateLockedTiles | game.py:83-105 | the new state is the old one with the tile list replaced by `UnlockStep` of the old list; the invariant is kept |
| Game.Player.BuyTile | game.py:107-113 | the price is tile_price·nb_bought_tiles. If energy > price: the energy pays, the counter grows, the tile becomes empty and the unlock step runs; for an out-of-range id, IndexError after the energy and the counter have moved. Otherwise nothing changes. Non-negative energy stays non-negative |
| Game.Player.BuyBuilding | game.py:115-129 | an unknown kind raises KeyError with nothing changed. The price is 100 + 50·nb. If energy ≥ price: the energy pays, the bar takes env_build_cost, the kind's nb grows, and the tile holds a new level-0 building with the base durability; for an out-of-range id, IndexError after all but the tile have changed. Otherwise nothing changes. Non-negative energy stays non-negative |
| Game.Player.UpgradeBuilding | game.py:131-150 | no change for an id outside 0 ≤ id < len or a tile without a building. Otherwise, if energy ≥ the level's upgrade price: the level rises by one, durability becomes 100 + 50·lv, the energy pays, and the bar takes env_use_cost·lv; else no change. Non-negative energy stays non-negative |
| Game.Player.MoneyEnvUpdate | game.py:154-166 | energy grows by the sum over building tiles of round(E_prod·(1 + lv/2)) and the bar by the sum of env_use_cost·(1 + lv/5); nothing else changes; energy never decreases, and without buildings nothing changes |
| Draw.SplitJoin | static/js/draw.js:42-45 | the three channels split off a 24-bit colour are bytes and join back to the colour |
| Draw.JoinSplit | static/js/draw.js:42-45 | three bytes joined into a colour split back into the same bytes |
| Draw.Clamp | static/js/draw.js:47-49 | the result is a byte; in-range values are kept; the result is 0 below the range and 255 above it |
| Draw.ShadeColor | static/js/draw.js:41-52 | an `rgb(...)` colour whose channels each move by percent, clamped to 0..255; a zero shift gives back the same colour; a negative shift never brightens a channel |
| Draw.ShadeMonotone | static/js/draw.js:47-49 | a larger shift never gives a darker channel |
| Draw.TileToColor | static/js/draw.js:29-38 | building and empty tiles (and any other status) get the terrain colour; buyable tiles get that colour shaded by -40 and locked tiles by -80 |
| Draw.LockedDarkestOwnedBrightest | static/js/draw.js:29-38 | on one terrain, locked ≤ buyable ≤ owned, channel by channel |
| Draw.UnknownTerrainIsBlack | static/js/draw.js:30 | a terrain missing from the colour table renders black whatever the status |
| Draw.Placed | static/js/draw.js:133-143 | after drawing, every tile keeps all its fields and has x/y = (cx + 1.5·size·q, cy + √3·size·(r + q/2)) |
| Draw.RedrawKeepsPositions | static/js/draw.js:133-143 | drawing again with the same origin and size leaves every tile where it is |
| Draw.Separation | static/js/draw.js:135-136 | the centres of two different cells are more than 1.1·size apart |
| Draw.FirstHitFrom | static/js/draw.js:123-129 | the index found is the first tile in list order with a position within the hit radius; none is found only if no tile qualifies |
| Draw.ClickTarget | static/js/draw.js:123-130 | a tile is returned exactly when some tile is hit; the returned tile is from the list and has a position |
| Draw.ClickOnCenterFindsTile | static/js/draw.js:123-136 | after drawing distinct cells with size > 0, a hit test with radius 1.1·size at the k-th tile's centre finds tile k |
| Draw.ClickPointInverts | static/js/draw.js:114-119 | scaling a click into the canvas undoes showing a canvas pixel on the screen |
| Draw.HitSize | static/js/draw.js:121 | the radius is 1.1 × the cached size, or 1.1 × 20 before any redraw or for a zero size |
| Draw.HexSize | static/js/draw.js:99 | min(w, h)/16: non-negative, positive for a non-empty canvas, at most a sixteenth of either side |
| Draw.MapCalls | static/js/draw.js:133-143 | one `drawHex` per tile, in order, at the tile's centre, selected exactly when its id equals selectedId |
| Draw.Context.ClearRect | static/js/draw.js:233-235 | the context records one clear of the whole canvas |
| Draw.Context.DrawHex | static/js/draw.js:159 | the context records one hex drawn at the given centre and size, with its selected flag |
| Draw.DrawMap | static/js/draw.js:133-143 | the array becomes `Placed` of its old contents; the context receives exactly `MapCalls` |
| Draw.View.constructor | static/js/draw.js:17 | no hex size is cached before the first redraw |
| Draw.View.RefreshView | static/js/draw.js:92-105 | with a null or empty list, or no canvas, nothing changes. Otherwise: the canvas is cleared; the map is drawn around (w/2, h/2) with size min(w,h)/16; the tiles get their centres; that size is cached |
| Draw.View.GetTileFromClick | static/js/draw.js:108-130 | no tile for a null list or a missing canvas. Otherwise the first tile in list order that has a position within the hit radius of the scaled click point; tiles without a position are never returned |
| Draw.RedrawThenClick | static/js/draw.js:92-130 | after a redraw on a non-empty canvas, clicking where a tile's centre is shown on screen returns that tile |
| App.Toggle | static/js/main.js:15-21 | the new selection is the resolved tile's id exactly when a tile resolved and it was not already selected; otherwise null |
| App.PanelTile | static/js/main.js:15-20 | the panel receives the resolved tile exactly when it became the selection, otherwise null |
| App.RedrawCalls | static/js/main.js:23 | one redraw adds nothing without tiles or canvas, otherwise one clear followed by one hex per tile |
| App.RedrawnTiles | static/js/main.js:23 | one redraw leaves the tiles alone without tiles or canvas, otherwise places them around the canvas middle |
| App.CachedSize | static/js/main.js:23 | one redraw keeps the cached size without tiles or canvas, otherwise caches min(w,h)/16 |
| App.Client.constructor | static/js/main.js:5-6 | the tile list is empty and nothing is selected |
| App.Client.Select | static/js/main.js:15-23 | the selection becomes `Toggle` of the old one; the panel is called once with the new selection; exactly one redraw is made with the new selection |
| App.Client.OnClick | static/js/main.js:12-24 | as written: the hit test gets no tile list, so every click leaves nothing selected and gives the panel null; it still redraws once |
| App.Client.OnClickIntended | static/js/main.js:12-24 | with the list passed: the selection toggles on the tile under the click, and the panel and the redraw follow it |
| App.ClickSelectsThenDeselects | static/js/main.js:15-23 | with the list passed and selection null, clicking on a drawn tile selects it; the redraw leaves it in place; a second click on the same spot clears the selection |

## Left out

- main.py, bottom_panel.js, asset loading, `resizeCanvas`, `loadPage` and the global `window.*` bindings are out of scope: they are server routing, DOM updates and fetch plumbing. The bottom panel appears only as the list of arguments given to `updateBottomPanel`.
- `drawHex`, `strokeHex`, `drawHexPath` and `clearCanvas` are recorded as calls on the context. The pixels they paint (images, masks, vertex trigonometry) are not modelled.
- Game.Player.UpgradeBuilding: the price `round(E_buy_cost·(lv+1)**1.5)` is floating-point. The model takes it as the function `upgradePrice` of the level, which the constructor receives.
- Game.Player.BuyBuilding: `round(env_build_cost, 3)` is not applied. The bar grows by `env_build_cost` exactly. The same holds for the `round(…, 3)` in UpgradeBuilding and MoneyEnvUpdate. The bar is a `real` with exact sums.
- Game.Player.BuyTile: `tile_price` is taken as an integer, so `round(tile_price·nb)` is the product itself.
- Game.Player.InitTiles: the terrain of each tile comes from `random.choice`. The model receives it as the function `terrainOf` of the tile id.
- Python's `Tile` and `Building` objects are modelled as values inside `Player.tiles`. A write to `tile.status`, `building.lv` or `building.durability` becomes a replacement of that list element. The source creates each object once and only the tile list refers to it, so no aliasing is lost.
- Draw: `Math.sqrt(3)` is its exact IEEE double value. All other arithmetic is exact real arithmetic, not IEEE double arithmetic. `Math.hypot(dx, dy) <= h` is decided on squared distances.
- Draw.View.GetTileFromClick: a bounding box of width or height 0 gives an infinite or NaN click point in IEEE arithmetic, and then no distance test passes. The model returns no tile directly in that case.
- Draw.DrawMap: the JavaScript tile records are modelled as values in an array. A list holding the same object twice would see both writes land on one object. The model does not capture that.
- Draw.BaseColor: only the six table names have colours. Names inherited from `Object.prototype` (e.g. `"toString"`) would give a non-string colour in JavaScript. The model does not capture that.
- The client reads `tile.tile_type`, while game.py's `Tile` stores its terrain as `type`. The server snapshot that would connect the two is not part of this model, so client tiles are a separate datatype `Draw.Hex`.
- Win/lose thresholds, tick polling and network failures do not appear in the core files and are not modelled.

Where the design description and the code disagree, the model follows the code:

- the hex size is min(w, h)/16, not /12;
- a new building starts at level 0, not 1;
- `buy_tile` needs energy strictly above the price, while `buy_building` and `upgrade_building` accept equality;
- neither purchase checks the tile's current status;
- a selected tile is passed to `drawHex` as a flag; the stroke weight is a canvas detail and is not modelled.

## Findings

| source | as written | input that shows it | evidently intended | confidence | as-written member | corrected member |
|---|---|---|---|---|---|---|
| static/js/main.js:13 | `getTileFromClick(e)` is called without the tile list, so the hit test returns null at its first line and every click clears the selection | any click on a drawn tile, with nothing selected: the selection stays null and the panel gets null | `getTileFromClick(e, hexes)`, so the click selects the tile under it and a second click on it deselects it | high (not executed) | App.Client.OnClick | App.Client.OnClickIntended, App.ClickSelectsThenDeselects |

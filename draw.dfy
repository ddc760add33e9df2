/**
  The browser view of static/js/draw.js: the fallback colour of a tile, the
  projection of axial cells to canvas pixels with its write-back onto the
  tile records, the redraw that caches the hex size, and the hit test that
  turns a click into the first tile under it.

  Geometry is over `real`. `Math.sqrt(3)` is the exact value of the IEEE
  double it returns; everything after that is exact arithmetic, and
  `Math.hypot(dx, dy) <= h` is decided as `h >= 0 && dx*dx + dy*dy <= h*h`.
*/
module Draw {
  import opened Common

  /* ---------- tile records as the client holds them ---------- */

  datatype Point = Point(x: real, y: real)

  /** A tile's `status` is either a string ("locked", "buyable", "empty", ...) or a building object. */
  datatype HexStatus = Text(s: string) | Obj

  /** A client tile: the fields the view reads, plus its pixel centre once drawn (`x == null` before). */
  datatype Hex = Hex(id: int, q: int, r: int, tileType: string, status: HexStatus, pos: Option<Point>)

  /* ---------- colours ---------- */

  /** A colour as the canvas receives it: "#rrggbb" (held as its 24-bit value) or "rgb(r,g,b)". */
  datatype Css = HexCode(value: int) | Rgb(r: int, g: int, b: int)

  type Rgb24 = n: int | 0 <= n < 0x100_0000

  /** ENV_COLORS, by terrain name. */
  const EnvColors: map<string, Rgb24> := map[
    "sea" := 0x003366, "river" := 0x66ccff, "forest" := 0x006600,
    "plain" := 0x99ff66, "desert" := 0xffcc00, "mountain" := 0x654321]

  /** `ENV_COLORS[t] || "#000000"`: every listed colour is a non-empty string, so only a missing name gives black. */
  function BaseColor(tileType: string): Rgb24 {
    if tileType in EnvColors then EnvColors[tileType] else 0
  }

  /** `(num >> 16) & 0xff`, `(num >> 8) & 0xff` and `num & 0xff` on a non-negative 24-bit value. */
  function Red(c: Rgb24): int { c / 0x1_0000 % 0x100 }
  function Green(c: Rgb24): int { c / 0x100 % 0x100 }
  function Blue(c: Rgb24): int { c % 0x100 }

  function Join(r: int, g: int, b: int): int { r * 0x1_0000 + g * 0x100 + b }

  predicate IsChannel(v: int) { 0 <= v <= 255 }

  /** Splitting a colour into its three channels loses nothing. */
  lemma SplitJoin(c: Rgb24)
    ensures IsChannel(Red(c)) && IsChannel(Green(c)) && IsChannel(Blue(c))
    ensures Join(Red(c), Green(c), Blue(c)) == c
  {
    var hi, lo := c / 0x100, c % 0x100;
    assert c == hi * 0x100 + lo;
    assert hi == Red(c) * 0x100 + Green(c);
    assert Red(c) == c / 0x1_0000 by {
      assert c / 0x1_0000 < 0x100;
    }
  }

  /** Three channels joined and split again come back unchanged. */
  lemma JoinSplit(r: int, g: int, b: int)
    requires IsChannel(r) && IsChannel(g) && IsChannel(b)
    ensures 0 <= Join(r, g, b) < 0x100_0000
    ensures Red(Join(r, g, b)) == r && Green(Join(r, g, b)) == g && Blue(Join(r, g, b)) == b
  {
    var c := Join(r, g, b);
    assert c == (r * 0x100 + g) * 0x100 + b;
    assert c / 0x100 == r * 0x100 + g && c % 0x100 == b;
    assert c / 0x1_0000 == (c / 0x100) / 0x100;
  }

  /** `Math.min(255, Math.max(0, v))`. */
  function Clamp(v: int): (c: int)
    ensures IsChannel(c)
    ensures IsChannel(v) ==> c == v
    ensures v < 0 ==> c == 0
    ensures v > 255 ==> c == 255
  {
    if v < 0 then 0 else if v > 255 then 255 else v
  }

  /**
    `shadeColor`: every channel moves by `percent` and is clamped to 0..255.
    A zero shift gives back the same colour, and a negative shift never
    brightens a channel.
  */
  function ShadeColor(color: Rgb24, percent: int): (shaded: Css)
    ensures shaded.Rgb? && IsChannel(shaded.r) && IsChannel(shaded.g) && IsChannel(shaded.b)
    ensures shaded.r == Clamp(Red(color) + percent) && shaded.g == Clamp(Green(color) + percent)
            && shaded.b == Clamp(Blue(color) + percent)
    ensures percent == 0 ==> Join(shaded.r, shaded.g, shaded.b) == color
    ensures percent <= 0 ==> shaded.r <= Red(color) && shaded.g <= Green(color) && shaded.b <= Blue(color)
  {
    SplitJoin(color);
    Rgb(Clamp(Red(color) + percent), Clamp(Green(color) + percent), Clamp(Blue(color) + percent))
  }

  /** The three channels of either colour form. */
  function Channels(c: Css): (int, int, int) {
    match c
    case HexCode(v) => if 0 <= v < 0x100_0000 then (Red(v), Green(v), Blue(v)) else (0, 0, 0)
    case Rgb(r, g, b) => (r, g, b)
  }

  predicate NoBrighter(a: (int, int, int), b: (int, int, int)) {
    a.0 <= b.0 && a.1 <= b.1 && a.2 <= b.2
  }

  /** A larger shift never gives a darker channel. */
  lemma ShadeMonotone(color: Rgb24, p1: int, p2: int)
    requires p1 <= p2
    ensures NoBrighter(Channels(ShadeColor(color, p1)), Channels(ShadeColor(color, p2)))
  {
  }

  /**
    `tileToColor`: a building or an "empty" tile (and any other status) shows
    its terrain colour, a "buyable" tile that colour darkened by 40 and a
    "locked" tile darkened by 80; an unknown terrain is black.
  */
  function TileToColor(tile: Hex): (color: Css)
    ensures tile.status.Obj? ==> color == HexCode(BaseColor(tile.tileType))
    ensures tile.status == Text("locked") ==> color == ShadeColor(BaseColor(tile.tileType), -80)
    ensures tile.status == Text("buyable") ==> color == ShadeColor(BaseColor(tile.tileType), -40)
    ensures tile.status.Text? && tile.status.s != "locked" && tile.status.s != "buyable" ==>
              color == HexCode(BaseColor(tile.tileType))
  {
    var baseColor := BaseColor(tile.tileType);
    if tile.status.Obj? then HexCode(baseColor)
    else if tile.status.s == "locked" then ShadeColor(baseColor, -80)
    else if tile.status.s == "buyable" then ShadeColor(baseColor, -40)
    else if tile.status.s == "empty" then HexCode(baseColor)
    else HexCode(baseColor)
  }

  /** On the same terrain a locked tile is never brighter than a buyable one, nor a buyable one than an owned one. */
  lemma {:induction false} LockedDarkestOwnedBrightest(tileType: string, locked: Hex, buyable: Hex, owned: Hex)
    requires locked.tileType == buyable.tileType == owned.tileType == tileType
    requires locked.status == Text("locked") && buyable.status == Text("buyable")
    requires owned.status == Obj || owned.status == Text("empty")
    ensures NoBrighter(Channels(TileToColor(locked)), Channels(TileToColor(buyable)))
    ensures NoBrighter(Channels(TileToColor(buyable)), Channels(TileToColor(owned)))
  {
    var c := BaseColor(tileType);
    ShadeMonotone(c, -80, -40);
    assert TileToColor(owned) == HexCode(c);
  }

  /** An unknown terrain always renders pure black, whatever its status. */
  lemma UnknownTerrainIsBlack(tile: Hex)
    requires tile.tileType !in EnvColors
    ensures Channels(TileToColor(tile)) == (0, 0, 0)
  {
  }

  /* ---------- projection ---------- */

  /** The IEEE double `Math.sqrt(3)`, written out exactly. */
  const Sqrt3: real := 1.732050807568877193176604123436845839023590087890625

  /** The pixel centre of axial cell (q, r) for origin (cx, cy) and hex size `size`. */
  function Center(cx: real, cy: real, size: real, q: int, r: int): Point {
    Point(cx + size * 1.5 * q as real, cy + size * Sqrt3 * (r as real + q as real / 2.0))
  }

  function SqDist(a: Point, b: Point): real {
    (a.x - b.x) * (a.x - b.x) + (a.y - b.y) * (a.y - b.y)
  }

  /** The tiles after `drawMap`: each tile keeps its fields and gets its centre as x/y. */
  function Placed(hs: seq<Hex>, cx: real, cy: real, size: real): (placed: seq<Hex>)
    ensures |placed| == |hs|
    ensures forall i :: 0 <= i < |hs| ==>
              placed[i].pos == Some(Center(cx, cy, size, hs[i].q, hs[i].r)) &&
              placed[i].(pos := None) == hs[i].(pos := None)
  {
    seq(|hs|, i requires 0 <= i < |hs| => hs[i].(pos := Some(Center(cx, cy, size, hs[i].q, hs[i].r))))
  }

  /** Drawing again with the same origin and size puts every tile where it already is. */
  lemma RedrawKeepsPositions(hs: seq<Hex>, cx: real, cy: real, size: real)
    ensures Placed(Placed(hs, cx, cy, size), cx, cy, size) == Placed(hs, cx, cy, size)
  {
    var once := Placed(hs, cx, cy, size);
    var twice := Placed(once, cx, cy, size);
    forall i | 0 <= i < |hs|
      ensures twice[i] == once[i]
    {
      assert twice[i].(pos := None) == once[i].(pos := None);
    }
  }

  lemma SquareAtLeastOne(n: int)
    requires n != 0
    ensures (n as real) * (n as real) >= 1.0
  {
    var a := if n < 0 then -n as real else n as real;
    assert a >= 1.0 && a * a == (n as real) * (n as real);
    assert a * a >= a * 1.0;
  }

  lemma ScaleAtLeast(k: real, m: real, s: real)
    requires k >= 0.0 && m >= 1.0
    ensures k * s * s * m >= k * s * s
  {
    assert k * s * s >= 0.0;
  }

  lemma ScaleAbove(a: real, b: real, s: real)
    requires a > b && s != 0.0
    ensures a * s * s > b * s * s
  {
    assert s * s > 0.0;
    assert (a - b) * (s * s) > 0.0;
  }

  /**
    Two different cells are more than 1.1 sizes apart: a different column
    puts them 1.5 sizes apart horizontally, the same column puts them √3
    sizes apart vertically.
  */
  lemma Separation(cx: real, cy: real, size: real, q1: int, r1: int, q2: int, r2: int)
    requires size > 0.0 && (q1, r1) != (q2, r2)
    ensures SqDist(Center(cx, cy, size, q1, r1), Center(cx, cy, size, q2, r2)) > (1.1 * size) * (1.1 * size)
  {
    var a, b := Center(cx, cy, size, q1, r1), Center(cx, cy, size, q2, r2);
    var dq, dr := (q1 - q2) as real, (r1 - r2) as real;
    var dx, dy := a.x - b.x, a.y - b.y;
    assert dx == size * 1.5 * dq;
    assert dy == size * Sqrt3 * (dr + dq / 2.0);
    assert dx * dx == 2.25 * size * size * (dq * dq);
    assert dy * dy >= 0.0;
    if q1 != q2 {
      SquareAtLeastOne(q1 - q2);
      ScaleAtLeast(2.25, dq * dq, size);
      assert dx * dx >= 2.25 * size * size;
      ScaleAbove(2.25, 1.21, size);
    } else {
      assert dy == size * Sqrt3 * dr;
      assert dy * dy == (Sqrt3 * Sqrt3) * size * size * (dr * dr);
      SquareAtLeastOne(r1 - r2);
      ScaleAtLeast(Sqrt3 * Sqrt3, dr * dr, size);
      assert Sqrt3 * Sqrt3 > 1.21;
      ScaleAbove(Sqrt3 * Sqrt3, 1.21, size);
    }
    assert (1.1 * size) * (1.1 * size) == 1.21 * size * size;
    assert SqDist(a, b) == dx * dx + dy * dy;
  }

  /* ---------- hit testing ---------- */

  /** `Math.hypot(dx, dy) <= h`, on squares: the length is never negative, so a negative h admits nothing. */
  predicate InRadius(dx: real, dy: real, h: real) {
    h >= 0.0 && dx * dx + dy * dy <= h * h
  }

  /** The test `tile.x != null && Math.hypot(x - tile.x, y - tile.y) <= hitSize`. */
  predicate Hits(p: Point, hitSize: real, tile: Hex) {
    tile.pos.Some? && InRadius(p.x - tile.pos.value.x, p.y - tile.pos.value.y, hitSize)
  }

  /** Index of the first tile at or after `from` that the click hits. */
  function FirstHitFrom(hs: seq<Hex>, p: Point, hitSize: real, from: nat): (k: Option<nat>)
    requires from <= |hs|
    ensures k.Some? ==> from <= k.value < |hs| && Hits(p, hitSize, hs[k.value])
    ensures k.Some? ==> forall j :: from <= j < k.value ==> !Hits(p, hitSize, hs[j])
    ensures k.None? ==> forall j :: from <= j < |hs| ==> !Hits(p, hitSize, hs[j])
    decreases |hs| - from
  {
    if from == |hs| then None
    else if Hits(p, hitSize, hs[from]) then Some(from)
    else FirstHitFrom(hs, p, hitSize, from + 1)
  }

  /** The tile a click at `p` selects: the first hit in list order, or none. */
  function ClickTarget(hs: seq<Hex>, p: Point, hitSize: real): (t: Option<Hex>)
    ensures t.Some? ==> t.value.pos.Some? && t.value in hs
    ensures t.Some? <==> exists j :: 0 <= j < |hs| && Hits(p, hitSize, hs[j])
  {
    var k := FirstHitFrom(hs, p, hitSize, 0);
    if k.None? then None else Some(hs[k.value])
  }

  predicate DistinctCells(hs: seq<Hex>) {
    forall i, j :: 0 <= i < j < |hs| ==> (hs[i].q, hs[i].r) != (hs[j].q, hs[j].r)
  }

  /**
    The projection and the hit test fit together: once the tiles are drawn
    with a positive size, a click on the centre of the k-th tile with the
    hit radius 1.1 * size finds exactly that tile.
  */
  lemma {:induction false} ClickOnCenterFindsTile(hs: seq<Hex>, cx: real, cy: real, size: real, k: nat)
    requires size > 0.0 && DistinctCells(hs) && k < |hs|
    ensures FirstHitFrom(Placed(hs, cx, cy, size), Center(cx, cy, size, hs[k].q, hs[k].r), 1.1 * size, 0) == Some(k)
  {
    var placed, p := Placed(hs, cx, cy, size), Center(cx, cy, size, hs[k].q, hs[k].r);
    assert SqDist(p, p) == 0.0;
    assert Hits(p, 1.1 * size, placed[k]);
    forall j | 0 <= j < |hs| && j != k
      ensures !Hits(p, 1.1 * size, placed[j])
    {
      Separation(cx, cy, size, hs[k].q, hs[k].r, hs[j].q, hs[j].r);
    }
  }

  /* ---------- the canvas ---------- */

  datatype Rect = Rect(left: real, top: real, width: real, height: real)

  /** What `document.getElementById("game-canvas")` yields when present: its resolution and its on-screen box. */
  datatype Canvas = Canvas(width: nat, height: nat, rect: Rect)

  datatype Pointer = Pointer(clientX: real, clientY: real)

  /** The canvas-pixel position of a click: the offset in the box, scaled to the canvas resolution. */
  function ClickPoint(e: Pointer, c: Canvas): Point
    requires c.rect.width != 0.0 && c.rect.height != 0.0
  {
    Point((e.clientX - c.rect.left) * (c.width as real / c.rect.width),
          (e.clientY - c.rect.top) * (c.height as real / c.rect.height))
  }

  /** Where on the screen a canvas pixel is shown. */
  function ScreenOf(p: Point, c: Canvas): Pointer
    requires c.width != 0 && c.height != 0
  {
    Pointer(c.rect.left + p.x * (c.rect.width / c.width as real),
            c.rect.top + p.y * (c.rect.height / c.height as real))
  }

  /** Scaling a click into the canvas undoes showing the canvas on the screen. */
  lemma ClickPointInverts(p: Point, c: Canvas)
    requires c.width != 0 && c.height != 0 && c.rect.width != 0.0 && c.rect.height != 0.0
    ensures ClickPoint(ScreenOf(p, c), c) == p
  {
    var w, h := c.width as real, c.height as real;
    assert p.x * (c.rect.width / w) * (w / c.rect.width) == p.x * ((c.rect.width / w) * (w / c.rect.width));
    assert (c.rect.width / w) * (w / c.rect.width) == 1.0;
    assert p.y * (c.rect.height / h) * (h / c.rect.height) == p.y * ((c.rect.height / h) * (h / c.rect.height));
    assert (c.rect.height / h) * (h / c.rect.height) == 1.0;
  }

  /** `(currentHexSettings?.hexSize || 20) * 1.1`: the cached size, or 20 before any redraw (or for a 0 size). */
  function HitSize(hexSize: Option<real>): (h: real)
    ensures hexSize.Some? && hexSize.value != 0.0 ==> h == 1.1 * hexSize.value
    ensures hexSize.None? || hexSize.value == 0.0 ==> h == 22.0
  {
    (if hexSize.None? || hexSize.value == 0.0 then 20.0 else hexSize.value) * 1.1
  }

  /** `Math.min(canvas.width, canvas.height) / 16`. */
  function HexSize(c: Canvas): (size: real)
    ensures size >= 0.0
    ensures c.width != 0 && c.height != 0 ==> size > 0.0
    ensures size * 16.0 <= c.width as real && size * 16.0 <= c.height as real
  {
    (if c.width < c.height then c.width else c.height) as real / 16.0
  }

  /** One call made on the 2D context, recorded for what the canvas API does with it. */
  datatype DrawCall = ClearRect(w: nat, h: nat) | DrawHex(center: Point, size: real, tile: Hex, selected: bool)

  /** The `drawHex` calls `drawMap` makes: one per tile, in order, selected exactly for the tile whose id is `selectedId`. */
  function MapCalls(hs: seq<Hex>, cx: real, cy: real, size: real, selectedId: Option<int>): (calls: seq<DrawCall>)
    ensures |calls| == |hs|
    ensures forall i :: 0 <= i < |hs| ==>
              calls[i].DrawHex? && calls[i].tile == hs[i] && calls[i].size == size &&
              calls[i].center == Center(cx, cy, size, hs[i].q, hs[i].r) &&
              (calls[i].selected <==> selectedId == Some(hs[i].id))
  {
    seq(|hs|, i requires 0 <= i < |hs| =>
      DrawHex(Center(cx, cy, size, hs[i].q, hs[i].r), size, hs[i], selectedId == Some(hs[i].id)))
  }

  /** The canvas 2D context, reduced to the calls made on it. */
  class Context {
    var calls: seq<DrawCall>

    constructor ()
      ensures calls == []
    {
      calls := [];
    }

    /** `clearCanvas`. */
    method ClearRect(w: nat, h: nat)
      modifies this
      ensures calls == old(calls) + [DrawCall.ClearRect(w, h)]
    {
      calls := calls + [DrawCall.ClearRect(w, h)];
    }

    /** `drawHex`; what it paints (image or vector hex, mask, outline) is the canvas API's business. */
    method DrawHex(center: Point, size: real, tile: Hex, selected: bool)
      modifies this
      ensures calls == old(calls) + [DrawCall.DrawHex(center, size, tile, selected)]
    {
      calls := calls + [DrawCall.DrawHex(center, size, tile, selected)];
    }
  }

  /**
    `drawMap`: draws every tile at its centre, in order, and writes the centre
    back onto the tile; nothing else about a tile changes.
  */
  method DrawMap(ctx: Context, hexes: array<Hex>, cx: real, cy: real, size: real, selectedId: Option<int>)
    modifies ctx, hexes
    ensures hexes[..] == Placed(old(hexes[..]), cx, cy, size)
    ensures ctx.calls == old(ctx.calls) + MapCalls(old(hexes[..]), cx, cy, size, selectedId)
  {
    ghost var before := hexes[..];
    ghost var calls := MapCalls(before, cx, cy, size, selectedId);
    for i := 0 to hexes.Length
      invariant forall j :: 0 <= j < i ==> hexes[j] == Placed(before, cx, cy, size)[j]
      invariant forall j :: i <= j < hexes.Length ==> hexes[j] == before[j]
      invariant ctx.calls == old(ctx.calls) + calls[..i]
    {
      var tile := hexes[i];
      var x := cx + size * 1.5 * tile.q as real;
      var y := cy + size * Sqrt3 * (tile.r as real + tile.q as real / 2.0);
      ctx.DrawHex(Point(x, y), size, tile, selectedId == Some(tile.id));
      assert calls[..i + 1] == calls[..i] + [calls[i]];
      hexes[i] := tile.(pos := Some(Point(x, y)));
      assert tile == before[i];
      assert Point(x, y) == Center(cx, cy, size, before[i].q, before[i].r);
      assert hexes[i] == Placed(before, cx, cy, size)[i];
    }
    assert calls[..hexes.Length] == calls;
    assert hexes[..] == Placed(before, cx, cy, size);
  }

  /** The module state of draw.js the core uses: the hex size cached by the last redraw. */
  class View {
    var currentHexSettings: Option<real>
    const ctx: Context

    constructor ()
      ensures currentHexSettings.None? && fresh(ctx) && ctx.calls == []
    {
      currentHexSettings := None;
      ctx := new Context();
    }

    /**
      `refresh_view`: nothing at all happens without tiles or without a
      canvas. Otherwise the canvas is cleared, the map is drawn around the
      canvas middle with size min(w, h) / 16, and that size is cached.
    */
    method RefreshView(hexes: array?<Hex>, selectedId: Option<int>, canvas: Option<Canvas>)
      modifies this, ctx, hexes
      ensures hexes == null || hexes.Length == 0 || canvas.None? ==>
                currentHexSettings == old(currentHexSettings) && ctx.calls == old(ctx.calls) &&
                (hexes != null ==> hexes[..] == old(hexes[..]))
      ensures hexes != null && hexes.Length != 0 && canvas.Some? ==>
                var c := canvas.value;
                var size := HexSize(c);
                var cx, cy := c.width as real / 2.0, c.height as real / 2.0;
                currentHexSettings == Some(size) &&
                hexes[..] == Placed(old(hexes[..]), cx, cy, size) &&
                ctx.calls == old(ctx.calls) + [DrawCall.ClearRect(c.width, c.height)] +
                             MapCalls(old(hexes[..]), cx, cy, size, selectedId)
    {
      if hexes == null || hexes.Length == 0 {
        return;
      }
      if canvas.None? {
        return;
      }
      var c := canvas.value;
      var size := (if c.width < c.height then c.width else c.height) as real / 16.0;
      ctx.ClearRect(c.width, c.height);
      DrawMap(ctx, hexes, c.width as real / 2.0, c.height as real / 2.0, size, selectedId);
      currentHexSettings := Some(size);
    }

    /**
      `getTileFromClick`: no tile without a list or a canvas; otherwise the
      first tile, in list order, with a position within the hit radius of the
      scaled click point. A zero-sized on-screen box makes the scaled point
      infinite or NaN in IEEE arithmetic, where no distance test succeeds, so
      no tile is found then either.
    */
    method GetTileFromClick(event: Pointer, hexes: array?<Hex>, canvas: Option<Canvas>) returns (tile: Option<Hex>)
      ensures hexes == null || canvas.None? || canvas.value.rect.width == 0.0 || canvas.value.rect.height == 0.0 ==>
                tile.None?
      ensures hexes != null && canvas.Some? && canvas.value.rect.width != 0.0 && canvas.value.rect.height != 0.0 ==>
                tile == ClickTarget(hexes[..], ClickPoint(event, canvas.value), HitSize(currentHexSettings))
    {
      if hexes == null {
        return None;
      }
      if canvas.None? {
        return None;
      }
      var c := canvas.value;
      if c.rect.width == 0.0 || c.rect.height == 0.0 {
        return None;
      }
      var scaleX := c.width as real / c.rect.width;
      var scaleY := c.height as real / c.rect.height;
      var x := (event.clientX - c.rect.left) * scaleX;
      var y := (event.clientY - c.rect.top) * scaleY;
      var hitSize := HitSize(currentHexSettings);
      ghost var p := Point(x, y);
      assert p == ClickPoint(event, c);
      for i := 0 to hexes.Length
        invariant FirstHitFrom(hexes[..], p, hitSize, 0) == FirstHitFrom(hexes[..], p, hitSize, i)
      {
        var t := hexes[i];
        if t.pos.None? {
          continue;
        }
        var dx := x - t.pos.value.x;
        var dy := y - t.pos.value.y;
        if InRadius(dx, dy, hitSize) {
          return Some(t);
        }
      }
      return None;
    }
  }

  /**
    The redraw and the hit test together: after a redraw on a canvas of
    positive size, clicking on the screen where a tile's centre is shown
    finds that tile.
  */
  lemma {:induction false} RedrawThenClick(hs: seq<Hex>, c: Canvas, k: nat)
    requires c.width != 0 && c.height != 0 && c.rect.width != 0.0 && c.rect.height != 0.0
    requires DistinctCells(hs) && k < |hs|
    ensures var size := HexSize(c);
            var placed := Placed(hs, c.width as real / 2.0, c.height as real / 2.0, size);
            ClickTarget(placed, ClickPoint(ScreenOf(placed[k].pos.value, c), c), HitSize(Some(size))) == Some(placed[k])
  {
    var size := HexSize(c);
    var cx, cy := c.width as real / 2.0, c.height as real / 2.0;
    var placed := Placed(hs, cx, cy, size);
    ClickPointInverts(placed[k].pos.value, c);
    ClickOnCenterFindsTile(hs, cx, cy, size, k);
  }
}

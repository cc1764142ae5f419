/**
  `TiledMapRenderer`: the map view. Loading a Tiled map fills three things:
  - the tileset coordinate table, which maps each tile id to its source rectangle in
    the tileset image;
  - the tile layers, each a row-major array of `mapWidth * mapHeight` tile ids
    assembled little-endian from the layer's base64-decoded bytes;
  - the collider list.
  Painting walks the tiles under the camera and draws each tile that is non-empty and
  known to the table.

  XML parsing, base64 decoding and image loading are outside the model; their results
  arrive as parameters (`MapData`). A paint is the sequence of `drawImage` calls it
  would make.
*/
module TiledMap {
  import opened Geometry
  import JavaText
  import CameraModel

  /** A decoded byte as `b & 0xFF` reads it. */
  type Byte = b: int | 0 <= b < 0x100

  const TWO_31: int := 0x8000_0000
  const TWO_32: int := 0x1_0000_0000

  // ---------------------------------------------------------------------------
  // Tile ids: four bytes, least significant first, read as a Java `int`

  /**
    `b0 | b1 << 8 | b2 << 16 | b3 << 24` as an unsigned 32-bit value: the four
    shifted bytes occupy disjoint bits, so each `|` adds.
  */
  function Word(b0: Byte, b1: Byte, b2: Byte, b3: Byte): (w: int)
    ensures 0 <= w < TWO_32
  {
    b0 + 0x100 * (b1 + 0x100 * (b2 + 0x100 * b3))
  }

  /** The value of a 32-bit word as a Java `int` (two's complement). */
  function Signed(w: int): (r: int)
    requires 0 <= w < TWO_32
    ensures JavaText.IsInt32(r)
    ensures r >= 0 <==> w < TWO_31
  {
    if w < TWO_31 then w else w - TWO_32
  }

  /** The 32-bit word whose two's-complement value is `id`. */
  function Unsigned(id: int): (w: int)
    requires JavaText.IsInt32(id)
    ensures 0 <= w < TWO_32 && Signed(w) == id
  {
    if id >= 0 then id else id + TWO_32
  }

  /** Tile `i` of a layer: decoded bytes `4i` to `4i + 3`, least significant first. */
  function TileIdAt(decoded: seq<Byte>, i: nat): (id: int)
    requires 4 * i + 4 <= |decoded|
    ensures JavaText.IsInt32(id)
    ensures id < 0 <==> decoded[4 * i + 3] >= 0x80
  {
    Signed(Word(decoded[4 * i], decoded[4 * i + 1], decoded[4 * i + 2], decoded[4 * i + 3]))
  }

  /** The little-endian encoding of a Java `int`, as Tiled writes a tile id. */
  function LittleEndian(id: int): (bs: seq<Byte>)
    requires JavaText.IsInt32(id)
    ensures |bs| == 4
  {
    var w := Unsigned(id);
    [w % 0x100, w / 0x100 % 0x100, w / 0x100 / 0x100 % 0x100, w / 0x100 / 0x100 / 0x100]
  }

  /** Reading a tile id back from its encoding gives the id. */
  lemma DecodeEncode(id: int)
    requires JavaText.IsInt32(id)
    ensures TileIdAt(LittleEndian(id), 0) == id
  {
    WordOfBytes(Unsigned(id));
  }

  /** Encoding the id read from four bytes gives the bytes back. */
  lemma EncodeDecode(decoded: seq<Byte>, i: nat)
    requires 4 * i + 4 <= |decoded|
    ensures LittleEndian(TileIdAt(decoded, i)) == decoded[4 * i .. 4 * i + 4]
  {
    BytesOfWord(decoded[4 * i], decoded[4 * i + 1], decoded[4 * i + 2], decoded[4 * i + 3]);
  }

  lemma WordOfBytes(w: int)
    requires 0 <= w < TWO_32
    ensures Word(w % 0x100, w / 0x100 % 0x100, w / 0x100 / 0x100 % 0x100, w / 0x100 / 0x100 / 0x100) == w
  {
    var q1 := w / 0x100;
    var q2 := q1 / 0x100;
    assert w == q1 * 0x100 + w % 0x100 && q1 == q2 * 0x100 + q1 % 0x100 && q2 == q2 / 0x100 * 0x100 + q2 % 0x100;
  }

  lemma BytesOfWord(b0: Byte, b1: Byte, b2: Byte, b3: Byte)
    ensures var w := Word(b0, b1, b2, b3);
            w % 0x100 == b0 && w / 0x100 % 0x100 == b1 && w / 0x100 / 0x100 % 0x100 == b2 && w / 0x100 / 0x100 / 0x100 == b3
  {
    var q2 := b2 + 0x100 * b3;
    var q1 := b1 + 0x100 * q2;
    DivModUnique(b0 + 0x100 * q1, 0x100, q1, b0);
    DivModUnique(q1, 0x100, q2, b1);
    DivModUnique(q2, 0x100, b3, b2);
  }

  /** A layer's tile ids written out little-endian, one after the other. */
  function EncodeLayer(ids: seq<int>): (bs: seq<Byte>)
    requires forall i | 0 <= i < |ids| :: JavaText.IsInt32(ids[i])
    ensures |bs| == 4 * |ids|
  {
    if ids == [] then [] else EncodeLayer(ids[..|ids| - 1]) + LittleEndian(ids[|ids| - 1])
  }

  lemma {:induction false} EncodeLayerAt(ids: seq<int>, i: nat)
    requires forall k | 0 <= k < |ids| :: JavaText.IsInt32(ids[k])
    requires i < |ids|
    ensures EncodeLayer(ids)[4 * i .. 4 * i + 4] == LittleEndian(ids[i])
  {
    var init := ids[..|ids| - 1];
    assert forall k | 0 <= k < |init| :: init[k] == ids[k];
    if i == |ids| - 1 {
      assert EncodeLayer(ids)[4 * i ..] == LittleEndian(ids[i]);
    } else {
      EncodeLayerAt(init, i);
      assert EncodeLayer(ids)[4 * i .. 4 * i + 4] == EncodeLayer(init)[4 * i .. 4 * i + 4];
    }
  }

  // ---------------------------------------------------------------------------
  // Layers

  /** One `<layer>`: its `encoding` attribute and its data after base64 decoding. */
  datatype LayerData = LayerData(encoding: string, decoded: seq<Byte>)

  /** The layer has enough bytes for `n` tiles, or is not base64 and is never read. */
  predicate Decodable(data: LayerData, n: nat) {
    data.encoding == "base64" ==> 4 * n <= |data.decoded|
  }

  /**
    The `n` tile ids a loaded layer holds: the little-endian ids of a base64 layer,
    zeros for a layer in any other encoding.
  */
  function LayerTiles(data: LayerData, n: nat): (ids: seq<int>)
    requires Decodable(data, n)
    ensures |ids| == n
  {
    if data.encoding == "base64" then seq(n, i requires 0 <= i < n => TileIdAt(data.decoded, i))
    else seq(n, i => 0)
  }

  /** A layer that is not base64 stays empty: every tile is 0. */
  lemma PlainLayerEmpty(data: LayerData, n: nat)
    requires data.encoding != "base64"
    ensures forall i | 0 <= i < n :: LayerTiles(data, n)[i] == 0
  {
  }

  /** Writing tile ids little-endian and loading them as a base64 layer gives them back. */
  lemma LayerRoundTrip(ids: seq<int>)
    requires forall i | 0 <= i < |ids| :: JavaText.IsInt32(ids[i])
    ensures Decodable(LayerData("base64", EncodeLayer(ids)), |ids|)
    ensures LayerTiles(LayerData("base64", EncodeLayer(ids)), |ids|) == ids
  {
    forall i | 0 <= i < |ids|
      ensures TileIdAt(EncodeLayer(ids), i) == ids[i]
    {
      TileOfEncoded(ids, i);
    }
  }

  lemma TileOfEncoded(ids: seq<int>, i: nat)
    requires forall k | 0 <= k < |ids| :: JavaText.IsInt32(ids[k])
    requires i < |ids|
    ensures TileIdAt(EncodeLayer(ids), i) == ids[i]
  {
    var bs, le := EncodeLayer(ids), LittleEndian(ids[i]);
    EncodeLayerAt(ids, i);
    assert bs[4 * i] == le[0] && bs[4 * i + 1] == le[1] && bs[4 * i + 2] == le[2] && bs[4 * i + 3] == le[3];
    DecodeEncode(ids[i]);
  }

  /**
    The byte loop of `loadMap` on one layer. A tile whose bytes run past the end of
    the data throws `ArrayIndexOutOfBoundsException`: the tiles before it are written,
    it and the ones after keep their value, and `ok` is false.
  */
  method FillLayer(layer: array<int>, decoded: seq<Byte>) returns (ok: bool)
    modifies layer
    ensures ok <==> 4 * layer.Length <= |decoded|
    ensures forall i | 0 <= i < layer.Length ::
              layer[i] == if 4 * i + 4 <= |decoded| then TileIdAt(decoded, i) else old(layer[i])
  {
    var i := 0;
    while i < layer.Length
      invariant 0 <= i <= layer.Length && 4 * i <= |decoded|
      invariant forall j | 0 <= j < i :: layer[j] == TileIdAt(decoded, j)
      invariant forall j | i <= j < layer.Length :: layer[j] == old(layer[j])
    {
      if 4 * i + 3 >= |decoded| {
        return false;
      }
      var id := Signed(Word(decoded[4 * i], decoded[4 * i + 1], decoded[4 * i + 2], decoded[4 * i + 3]));
      layer[i] := id;
      i := i + 1;
    }
    ok := true;
  }

  // ---------------------------------------------------------------------------
  // The tileset coordinate table

  /** `a <= b` survives scaling by a nonnegative factor. */
  lemma MulMonotone(a: int, b: int, c: int)
    requires a <= b && c >= 0
    ensures a * c <= b * c
  {
    assert b * c - a * c == (b - a) * c;
  }

  lemma MulCancel(a: int, b: int, c: int)
    requires c > 0 && a * c < b * c
    ensures a < b
  {
    if a >= b {
      MulMonotone(b, a, c);
    }
  }

  lemma DivModUnique(n: int, c: int, q: int, r: int)
    requires c > 0 && 0 <= r < c && n == q * c + r
    ensures n / c == q && n % c == r
  {
    var q', r' := n / c, n % c;
    assert n == q' * c + r';
    MulCancel(q', q + 1, c);
    MulCancel(q, q' + 1, c);
  }

  /** The cell `(x, y)` of a grid `cols` wide is the `y * cols + x`-th from 0. */
  lemma CellOfIndex(x: int, y: int, cols: int)
    requires 0 <= x < cols && 0 <= y
    ensures (y * cols + x) / cols == y && (y * cols + x) % cols == x
  {
    DivModUnique(y * cols + x, cols, y, x);
  }

  /** The tile in column `x`, row `y` has id `y * cols + x + 1` and covers that cell. */
  lemma TilesetEntry(cols: int, rows: int, tileWidth: int, tileHeight: int, x: int, y: int)
    requires 0 <= x < cols && 0 <= y < rows
    ensures var id := y * cols + x + 1;
            && id in TilesetTable(cols, rows, tileWidth, tileHeight)
            && TilesetTable(cols, rows, tileWidth, tileHeight)[id] == Rect(x * tileWidth, y * tileHeight, tileWidth, tileHeight)
  {
    MulMonotone(y + 1, rows, cols);
    CellsValue(rows, 0, cols, tileWidth, tileHeight, x, y);
  }

  /** The ids of the table are exactly 1 to `rows * cols`, each the id of one cell. */
  lemma TilesetIds(cols: int, rows: int, tileWidth: int, tileHeight: int, id: int)
    requires cols > 0 && rows > 0
    ensures id in TilesetTable(cols, rows, tileWidth, tileHeight) <==> 1 <= id <= rows * cols
    ensures 1 <= id <= rows * cols ==>
              var x, y := (id - 1) % cols, (id - 1) / cols;
              0 <= x < cols && 0 <= y < rows && id == y * cols + x + 1
  {
    CellsKeys(rows, 0, cols, tileWidth, tileHeight, id);
    if 1 <= id <= rows * cols {
      var y := (id - 1) / cols;
      if y >= rows {
        MulMonotone(rows, y, cols);
      }
    }
  }

  /** Distinct cells have distinct ids. */
  lemma CellIdsDistinct(cols: int, x: int, y: int, x': int, y': int)
    requires 0 <= x < cols && 0 <= y && 0 <= x' < cols && 0 <= y'
    requires y * cols + x + 1 == y' * cols + x' + 1
    ensures x == x' && y == y'
  {
    CellOfIndex(x, y, cols);
    CellOfIndex(x', y', cols);
  }

  /** Every rectangle of the table of an image lies inside the image. */
  lemma TilesetInsideImage(imageWidth: int, imageHeight: int, tileWidth: int, tileHeight: int, id: int)
    requires tileWidth > 0 && tileHeight > 0
    requires id in TilesetTable(TruncDiv(imageWidth, tileWidth), TruncDiv(imageHeight, tileHeight), tileWidth, tileHeight)
    ensures var r := TilesetTable(TruncDiv(imageWidth, tileWidth), TruncDiv(imageHeight, tileHeight), tileWidth, tileHeight)[id];
            && 0 <= r.x && r.x + r.width <= imageWidth
            && 0 <= r.y && r.y + r.height <= imageHeight
  {
    var cols, rows := TruncDiv(imageWidth, tileWidth), TruncDiv(imageHeight, tileHeight);
    TilesetIds(cols, rows, tileWidth, tileHeight, id);
    var x, y := (id - 1) % cols, (id - 1) / cols;
    TilesetEntry(cols, rows, tileWidth, tileHeight, x, y);
    InsideSpan(x, cols, tileWidth, imageWidth);
    InsideSpan(y, rows, tileHeight, imageHeight);
  }

  lemma InsideSpan(x: int, cols: int, size: int, extent: int)
    requires 0 <= x < cols && size > 0 && cols == TruncDiv(extent, size)
    ensures 0 <= x * size && x * size + size <= extent
  {
    assert extent >= 0 && cols == extent / size;
    MulMonotone(0, x, size);
    MulMonotone(x + 1, cols, size);
  }

  lemma NoTiles(t0: map<int, Rect>, cols: int, rows: int, tileWidth: int, tileHeight: int)
    requires cols <= 0 || rows <= 0
    ensures t0 + TilesetTable(cols, rows, tileWidth, tileHeight) == t0
  {
    assert TilesetTable(cols, rows, tileWidth, tileHeight) == map[];
  }

  /**
    The table after the puts of `loadMap` for every cell of rows `0 .. y - 1` and
    cells `0 .. x - 1` of row `y`, starting from `t0`.
  */
  function PutCells(t0: map<int, Rect>, y: nat, x: nat, cols: nat, tileWidth: int, tileHeight: int): map<int, Rect>
    decreases y, x
  {
    if x > 0 then
      PutCells(t0, y, x - 1, cols, tileWidth, tileHeight)[y * cols + x := Rect((x - 1) * tileWidth, y * tileHeight, tileWidth, tileHeight)]
    else if y > 0 then PutCells(t0, y - 1, cols, cols, tileWidth, tileHeight)
    else t0
  }

  /** The table of a tileset `cols` by `rows` tiles: every cell put into an empty map. */
  function TilesetTable(cols: int, rows: int, tileWidth: int, tileHeight: int): map<int, Rect> {
    if cols <= 0 || rows <= 0 then map[] else PutCells(map[], rows, 0, cols, tileWidth, tileHeight)
  }

  /** Putting into `t0` overrides `t0` with what putting into an empty map gives. */
  lemma {:induction false} PutCellsOnto(t0: map<int, Rect>, y: nat, x: nat, cols: nat, tileWidth: int, tileHeight: int)
    decreases y, x
    ensures PutCells(t0, y, x, cols, tileWidth, tileHeight) == t0 + PutCells(map[], y, x, cols, tileWidth, tileHeight)
  {
    if x > 0 {
      PutCellsOnto(t0, y, x - 1, cols, tileWidth, tileHeight);
      UnionPut(t0, PutCells(map[], y, x - 1, cols, tileWidth, tileHeight),
               y * cols + x, Rect((x - 1) * tileWidth, y * tileHeight, tileWidth, tileHeight));
    } else if y > 0 {
      PutCellsOnto(t0, y - 1, cols, cols, tileWidth, tileHeight);
    } else {
      assert t0 + map[] == t0;
    }
  }

  lemma UnionPut(t0: map<int, Rect>, m: map<int, Rect>, k: int, v: Rect)
    ensures (t0 + m)[k := v] == t0 + m[k := v]
  {
  }

  /** After the puts up to cell `(x, y)`, the keys are the ids 1 to `y * cols + x`. */
  lemma {:induction false} CellsKeys(y: nat, x: nat, cols: nat, tileWidth: int, tileHeight: int, k: int)
    requires x <= cols
    decreases y, x
    ensures k in PutCells(map[], y, x, cols, tileWidth, tileHeight) <==> 1 <= k <= y * cols + x
  {
    if x > 0 {
      CellsKeys(y, x - 1, cols, tileWidth, tileHeight, k);
    } else if y > 0 {
      CellsKeys(y - 1, cols, cols, tileWidth, tileHeight, k);
      assert (y - 1) * cols + cols == y * cols;
    }
  }

  /** A cell put before `(X, Y)` still holds its own rectangle: no later put has its id. */
  lemma {:induction false} CellsValue(Y: nat, X: nat, cols: nat, tileWidth: int, tileHeight: int, x: nat, y: nat)
    requires X <= cols && x < cols
    requires y * cols + x < Y * cols + X
    decreases Y, X
    ensures y * cols + x + 1 in PutCells(map[], Y, X, cols, tileWidth, tileHeight)
    ensures PutCells(map[], Y, X, cols, tileWidth, tileHeight)[y * cols + x + 1] == Rect(x * tileWidth, y * tileHeight, tileWidth, tileHeight)
  {
    if X > 0 {
      if y * cols + x + 1 == Y * cols + X {
        CellIdsDistinct(cols, x, y, X - 1, Y);
      } else {
        CellsValue(Y, X - 1, cols, tileWidth, tileHeight, x, y);
      }
    } else {
      MulMonotone(0, y, cols);
      assert Y > 0;
      assert (Y - 1) * cols + cols == Y * cols;
      CellsValue(Y - 1, cols, cols, tileWidth, tileHeight, x, y);
    }
  }

  // ---------------------------------------------------------------------------
  // Painting

  /** The tile rectangle `[startX, endX) x [startY, endY)` that a paint walks. */
  datatype Range = Range(startX: int, startY: int, endX: int, endY: int)

  /**
    The visible range of `paintComponent` for a camera at `cam` and a panel
    `panelWidth` by `panelHeight`: from the tile under the camera (Java division,
    toward zero) to two tiles past the panel's width in tiles, clamped to the map.
  */
  function VisibleRange(cam: Point, panelWidth: int, panelHeight: int, tileWidth: int, tileHeight: int,
                        mapWidth: int, mapHeight: int): Range
    requires tileWidth != 0 && tileHeight != 0
  {
    var startX := TruncDiv(cam.x, tileWidth);
    var startY := TruncDiv(cam.y, tileHeight);
    Range(Max(0, startX), Max(0, startY),
          Min(mapWidth, startX + TruncDiv(panelWidth, tileWidth) + 2),
          Min(mapHeight, startY + TruncDiv(panelHeight, tileHeight) + 2))
  }

  /** A range within a map `mapWidth` by `mapHeight`. */
  predicate InMap(r: Range, mapWidth: int, mapHeight: int) {
    0 <= r.startX && 0 <= r.startY && r.endX <= mapWidth && r.endY <= mapHeight
  }

  /** The visible range never leaves the map. */
  lemma VisibleInMap(cam: Point, panelWidth: int, panelHeight: int, tileWidth: int, tileHeight: int,
                     mapWidth: int, mapHeight: int)
    requires tileWidth != 0 && tileHeight != 0
    ensures InMap(VisibleRange(cam, panelWidth, panelHeight, tileWidth, tileHeight, mapWidth, mapHeight), mapWidth, mapHeight)
  {
  }

  /** Row-major indexing of a map cell lands inside the layer. */
  lemma IndexInLayer(mapWidth: int, mapHeight: int, x: int, y: int)
    requires 0 <= x < mapWidth && 0 <= y < mapHeight
    ensures 0 <= y * mapWidth + x < mapWidth * mapHeight
  {
    MulMonotone(0, y, mapWidth);
    MulMonotone(y + 1, mapHeight, mapWidth);
  }

  /**
    Every index `y * mapWidth + x` the paint loop reads lies in a layer of
    `mapWidth * mapHeight` tiles.
  */
  lemma VisibleIndexInLayer(cam: Point, panelWidth: int, panelHeight: int, tileWidth: int, tileHeight: int,
                            mapWidth: int, mapHeight: int, x: int, y: int)
    requires tileWidth != 0 && tileHeight != 0
    requires var r := VisibleRange(cam, panelWidth, panelHeight, tileWidth, tileHeight, mapWidth, mapHeight);
             r.startX <= x < r.endX && r.startY <= y < r.endY
    ensures 0 <= y * mapWidth + x < mapWidth * mapHeight
  {
    IndexInLayer(mapWidth, mapHeight, x, y);
  }

  /** One axis of `VisibleCoversView`. */
  lemma SpanCovers(c: int, p: int, t: int, x: int)
    requires t > 0 && c >= 0 && p > 0
    requires x * t < c + p && c < x * t + t
    ensures c / t <= x < c / t + p / t + 2
  {
    var q, q' := c / t, p / t;
    assert c == q * t + c % t && p == q' * t + p % t;
    MulCancel(q, x + 1, t);
    MulCancel(x, q + q' + 2, t);
  }

  /**
    With the camera inside the map's quadrant and tiles of positive size, the
    visible range holds every map tile that overlaps the panel.
  */
  lemma VisibleCoversView(cam: Point, panelWidth: int, panelHeight: int, tileWidth: int, tileHeight: int,
                          mapWidth: int, mapHeight: int, x: int, y: int)
    requires tileWidth > 0 && tileHeight > 0 && cam.x >= 0 && cam.y >= 0
    requires 0 <= x < mapWidth && 0 <= y < mapHeight
    requires Intersects(Rect(x * tileWidth, y * tileHeight, tileWidth, tileHeight),
                        Rect(cam.x, cam.y, panelWidth, panelHeight))
    ensures var r := VisibleRange(cam, panelWidth, panelHeight, tileWidth, tileHeight, mapWidth, mapHeight);
            r.startX <= x < r.endX && r.startY <= y < r.endY
  {
    SpanCovers(cam.x, panelWidth, tileWidth, x);
    SpanCovers(cam.y, panelHeight, tileHeight, y);
  }

  /** One `drawImage(img, dx1, dy1, dx2, dy2, sx1, sy1, sx2, sy2, null)` call. */
  datatype Draw = Draw(dx1: int, dy1: int, dx2: int, dy2: int, sx1: int, sy1: int, sx2: int, sy2: int)

  /** What one paint works from: the map's size, its tile size, the camera and the table. */
  datatype Frame = Frame(mapWidth: int, mapHeight: int, tileWidth: int, tileHeight: int,
                         cam: Point, table: map<int, Rect>)

  /** Tile `(x, y)` drawn from `source`, shifted by the camera. */
  function DrawOf(f: Frame, x: int, y: int, source: Rect): Draw {
    Draw(x * f.tileWidth - f.cam.x, y * f.tileHeight - f.cam.y,
         (x + 1) * f.tileWidth - f.cam.x, (y + 1) * f.tileHeight - f.cam.y,
         source.x, source.y, source.x + source.width, source.y + source.height)
  }

  predicate LayerFits(f: Frame, tiles: seq<int>) {
    |tiles| == f.mapWidth * f.mapHeight
  }

  /** The id of map cell `(x, y)` in a row-major layer. */
  function TileAt(f: Frame, tiles: seq<int>, x: int, y: int): int
    requires LayerFits(f, tiles) && 0 <= x < f.mapWidth && 0 <= y < f.mapHeight
  {
    IndexInLayer(f.mapWidth, f.mapHeight, x, y);
    tiles[y * f.mapWidth + x]
  }

  /** A cell is drawn when its id is not 0 and the table knows it. */
  predicate Shown(f: Frame, tiles: seq<int>, x: int, y: int)
    requires LayerFits(f, tiles) && 0 <= x < f.mapWidth && 0 <= y < f.mapHeight
  {
    TileAt(f, tiles, x, y) != 0 && TileAt(f, tiles, x, y) in f.table
  }

  function CellDraws(f: Frame, tiles: seq<int>, x: int, y: int): seq<Draw>
    requires LayerFits(f, tiles) && 0 <= x < f.mapWidth && 0 <= y < f.mapHeight
  {
    if Shown(f, tiles, x, y) then [DrawOf(f, x, y, f.table[TileAt(f, tiles, x, y)])] else []
  }

  /** The draws of row `y` for columns `x0` up to `x1`. */
  function RowDraws(f: Frame, tiles: seq<int>, y: int, x0: int, x1: int): seq<Draw>
    requires LayerFits(f, tiles) && 0 <= y < f.mapHeight
    requires 0 <= x0 && (x1 <= x0 || x1 <= f.mapWidth)
    decreases x1 - x0
  {
    if x1 <= x0 then [] else RowDraws(f, tiles, y, x0, x1 - 1) + CellDraws(f, tiles, x1 - 1, y)
  }

  /** The draws of the rows of `r` from its first up to `y1`. */
  function RowsDraws(f: Frame, tiles: seq<int>, r: Range, y1: int): seq<Draw>
    requires LayerFits(f, tiles) && InMap(r, f.mapWidth, f.mapHeight)
    requires y1 <= r.startY || y1 <= r.endY
    decreases y1 - r.startY
  {
    if y1 <= r.startY then []
    else RowsDraws(f, tiles, r, y1 - 1) + RowDraws(f, tiles, y1 - 1, r.startX, r.endX)
  }

  predicate LayersFit(f: Frame, layers: seq<seq<int>>) {
    forall l | 0 <= l < |layers| :: LayerFits(f, layers[l])
  }

  /** A whole paint: every layer in order, each row by row. */
  function LayersDraws(f: Frame, layers: seq<seq<int>>, r: Range): seq<Draw>
    requires LayersFit(f, layers) && InMap(r, f.mapWidth, f.mapHeight)
  {
    if layers == [] then []
    else LayersDraws(f, layers[..|layers| - 1], r) + RowsDraws(f, layers[|layers| - 1], r, r.endY)
  }

  /**
    A row draws exactly its shown cells: tiles with id 0 and ids missing from the
    table are skipped, every other tile is drawn from its table rectangle.
  */
  lemma {:induction false} RowDrawsExactly(f: Frame, tiles: seq<int>, y: int, x0: int, x1: int)
    requires LayerFits(f, tiles) && 0 <= y < f.mapHeight
    requires 0 <= x0 && (x1 <= x0 || x1 <= f.mapWidth)
    decreases x1 - x0
    ensures forall d :: d in RowDraws(f, tiles, y, x0, x1) <==>
              exists x :: x0 <= x < x1 && Shown(f, tiles, x, y) && d == DrawOf(f, x, y, f.table[TileAt(f, tiles, x, y)])
  {
    if x1 > x0 {
      RowDrawsExactly(f, tiles, y, x0, x1 - 1);
    }
  }

  /** Every draw of a paint copies the rectangle of a non-empty tile id of the table. */
  lemma {:induction false} DrawsFromTable(f: Frame, layers: seq<seq<int>>, r: Range, d: Draw)
    requires LayersFit(f, layers) && InMap(r, f.mapWidth, f.mapHeight)
    requires d in LayersDraws(f, layers, r)
    ensures exists id :: id != 0 && id in f.table &&
              Rect(d.sx1, d.sy1, d.sx2 - d.sx1, d.sy2 - d.sy1) == f.table[id]
  {
    var init := layers[..|layers| - 1];
    assert LayersFit(f, init) by {
      assert forall l | 0 <= l < |init| :: init[l] == layers[l];
    }
    if d in LayersDraws(f, init, r) {
      DrawsFromTable(f, init, r, d);
    } else {
      RowsDrawFromTable(f, layers[|layers| - 1], r, r.endY, d);
    }
  }

  lemma {:induction false} RowsDrawFromTable(f: Frame, tiles: seq<int>, r: Range, y1: int, d: Draw)
    requires LayerFits(f, tiles) && InMap(r, f.mapWidth, f.mapHeight)
    requires y1 <= r.startY || y1 <= r.endY
    requires d in RowsDraws(f, tiles, r, y1)
    decreases y1 - r.startY
    ensures exists id :: id != 0 && id in f.table &&
              Rect(d.sx1, d.sy1, d.sx2 - d.sx1, d.sy2 - d.sy1) == f.table[id]
  {
    if d in RowsDraws(f, tiles, r, y1 - 1) {
      RowsDrawFromTable(f, tiles, r, y1 - 1, d);
    } else {
      RowDrawsExactly(f, tiles, y1 - 1, r.startX, r.endX);
      var x :| r.startX <= x < r.endX && Shown(f, tiles, x, y1 - 1) &&
               d == DrawOf(f, x, y1 - 1, f.table[TileAt(f, tiles, x, y1 - 1)]);
      var id := TileAt(f, tiles, x, y1 - 1);
      assert Rect(d.sx1, d.sy1, d.sx2 - d.sx1, d.sy2 - d.sy1) == f.table[id];
    }
  }

  // ---------------------------------------------------------------------------
  // Colliders

  /** One `<objectgroup>`: its `name` and its objects' rectangles, in document order. */
  datatype ObjectGroup = ObjectGroup(name: string, objects: seq<Rect>)

  /** The rectangles of the groups named `colisores`, in document order. */
  function GroupColliders(groups: seq<ObjectGroup>): (rs: seq<Rect>)
    ensures forall g | g in groups && g.name == "colisores" :: forall o | o in g.objects :: o in rs
    ensures forall o | o in rs :: exists g | g in groups :: g.name == "colisores" && o in g.objects
  {
    if groups == [] then []
    else
      var g := groups[|groups| - 1];
      GroupColliders(groups[..|groups| - 1]) + (if g.name == "colisores" then g.objects else [])
  }

  // ---------------------------------------------------------------------------
  // The renderer

  /** What `loadMap` reads from the map file and the tileset image. */
  datatype MapData = MapData(width: int, height: int, tileWidth: int, tileHeight: int,
                             imageWidth: int, imageHeight: int,
                             layers: seq<LayerData>, groups: seq<ObjectGroup>)

  /** `loadMap` runs to its end: no division by zero, no negative array size, no short layer. */
  predicate LoadCompletes(m: MapData) {
    && m.tileWidth != 0 && m.tileHeight != 0
    && m.width * m.height >= 0
    && forall l | 0 <= l < |m.layers| :: Decodable(m.layers[l], m.width * m.height)
  }

  class TiledMapRenderer {
    var mapWidth: int
    var mapHeight: int
    var tileWidth: int
    var tileHeight: int
    var layers: seq<array<int>>
    var colliders: seq<Rect>
    var tilesetCoordinates: map<int, Rect>
    var camera: CameraModel.Camera?

    /** A loaded map: nonzero tile sizes and every layer one id per map cell. */
    ghost predicate Valid()
      reads this
    {
      && tileWidth != 0 && tileHeight != 0
      && forall l | 0 <= l < |layers| :: layers[l].Length == mapWidth * mapHeight
    }

    /** The layers' tile ids. */
    ghost function Tiles(): seq<seq<int>>
      reads this, layers
    {
      seq(|layers|, l requires 0 <= l < |layers| reads this, layers => layers[l][..])
    }

    constructor ()
      ensures mapWidth == 0 && mapHeight == 0 && tileWidth == 0 && tileHeight == 0
      ensures layers == [] && colliders == [] && tilesetCoordinates == map[] && camera == null
    {
      mapWidth, mapHeight, tileWidth, tileHeight := 0, 0, 0, 0;
      layers := [];
      colliders := [];
      tilesetCoordinates := map[];
      camera := null;
    }

    method SetCamera(camera: CameraModel.Camera?)
      modifies this
      ensures this.camera == camera
      ensures mapWidth == old(mapWidth) && mapHeight == old(mapHeight)
      ensures tileWidth == old(tileWidth) && tileHeight == old(tileHeight)
      ensures layers == old(layers) && colliders == old(colliders)
      ensures tilesetCoordinates == old(tilesetCoordinates)
    {
      this.camera := camera;
    }

    /**
      The tileset part of `loadMap`: one entry per tile of the image, put into the
      table on top of what it held. A tile size of 0 throws before any entry.
    */
    method LoadTileset(imageWidth: int, imageHeight: int) returns (ok: bool)
      modifies this
      ensures ok <==> tileWidth != 0 && tileHeight != 0
      ensures ok ==>
                tilesetCoordinates == old(tilesetCoordinates) + TilesetTable(TruncDiv(imageWidth, tileWidth), TruncDiv(imageHeight, tileHeight), tileWidth, tileHeight)
      ensures !ok ==> tilesetCoordinates == old(tilesetCoordinates)
      ensures mapWidth == old(mapWidth) && mapHeight == old(mapHeight)
      ensures tileWidth == old(tileWidth) && tileHeight == old(tileHeight)
      ensures layers == old(layers) && colliders == old(colliders) && camera == old(camera)
    {
      if tileWidth == 0 || tileHeight == 0 {
        return false;
      }
      var tilesetCols := TruncDiv(imageWidth, tileWidth);
      var tilesetRows := TruncDiv(imageHeight, tileHeight);
      tilesetCoordinates := PutTiles(tilesetCoordinates, tilesetCols, tilesetRows, tileWidth, tileHeight);
      ok := true;
    }

    /** The nested loops that put tile `y * cols + x + 1` for each cell of the tileset. */
    static method PutTiles(t0: map<int, Rect>, cols: int, rows: int, tileWidth: int, tileHeight: int)
      returns (t: map<int, Rect>)
      ensures t == t0 + TilesetTable(cols, rows, tileWidth, tileHeight)
    {
      t := t0;
      var y := 0;
      while y < rows
        invariant y == 0 || 0 <= y <= rows
        invariant cols > 0 ==> t == PutCells(t0, y, 0, cols, tileWidth, tileHeight)
        invariant cols <= 0 ==> t == t0
      {
        t := PutRow(t, t0, cols, y, tileWidth, tileHeight);
        y := y + 1;
      }
      if cols <= 0 || rows <= 0 {
        NoTiles(t0, cols, rows, tileWidth, tileHeight);
      } else {
        PutCellsOnto(t0, rows, 0, cols, tileWidth, tileHeight);
      }
    }

    /** The inner loop of `PutTiles`: the tiles of tileset row `y`. */
    static method PutRow(t: map<int, Rect>, ghost t0: map<int, Rect>, cols: int, y: nat, tileWidth: int, tileHeight: int)
      returns (t': map<int, Rect>)
      requires cols > 0 ==> t == PutCells(t0, y, 0, cols, tileWidth, tileHeight)
      requires cols <= 0 ==> t == t0
      ensures cols > 0 ==> t' == PutCells(t0, y + 1, 0, cols, tileWidth, tileHeight)
      ensures cols <= 0 ==> t' == t0
    {
      t' := t;
      var x := 0;
      while x < cols
        invariant x == 0 || 0 <= x <= cols
        invariant cols <= 0 ==> t' == t0
        invariant cols > 0 ==> t' == PutCells(t0, y, x, cols, tileWidth, tileHeight)
      {
        var tileId := y * cols + x + 1;
        t' := t'[tileId := Rect(x * tileWidth, y * tileHeight, tileWidth, tileHeight)];
        x := x + 1;
      }
    }

    /** The collider part of `loadMap`: appends the objects of every `colisores` group. */
    method LoadColliders(groups: seq<ObjectGroup>)
      modifies this
      ensures colliders == old(colliders) + GroupColliders(groups)
      ensures mapWidth == old(mapWidth) && mapHeight == old(mapHeight)
      ensures tileWidth == old(tileWidth) && tileHeight == old(tileHeight)
      ensures layers == old(layers) && tilesetCoordinates == old(tilesetCoordinates) && camera == old(camera)
    {
      var i := 0;
      while i < |groups|
        invariant 0 <= i <= |groups|
        invariant colliders == old(colliders) + GroupColliders(groups[..i])
        invariant mapWidth == old(mapWidth) && mapHeight == old(mapHeight)
        invariant tileWidth == old(tileWidth) && tileHeight == old(tileHeight)
        invariant layers == old(layers) && tilesetCoordinates == old(tilesetCoordinates) && camera == old(camera)
      {
        assert groups[..i + 1][..i] == groups[..i];
        if groups[i].name == "colisores" {
          var objects := groups[i].objects;
          var j := 0;
          while j < |objects|
            invariant 0 <= j <= |objects|
            invariant colliders == old(colliders) + GroupColliders(groups[..i]) + objects[..j]
            invariant mapWidth == old(mapWidth) && mapHeight == old(mapHeight)
            invariant tileWidth == old(tileWidth) && tileHeight == old(tileHeight)
            invariant layers == old(layers) && tilesetCoordinates == old(tilesetCoordinates) && camera == old(camera)
          {
            assert objects[..j + 1] == objects[..j] + [objects[j]];
            colliders := colliders + [objects[j]];
            j := j + 1;
          }
          assert objects[..j] == objects;
        }
        i := i + 1;
      }
      assert groups[..i] == groups;
    }

    /**
      `loadMap` on what the file holds. Its steps, in order:
      - set the four sizes;
      - fill the tileset table;
      - allocate the layers and fill the base64 ones;
      - append the colliders.
      An exception stops it at that step; the steps already done stay done.
    */
    method LoadMap(m: MapData) returns (ok: bool)
      modifies this, layers
      ensures mapWidth == m.width && mapHeight == m.height
      ensures tileWidth == m.tileWidth && tileHeight == m.tileHeight && camera == old(camera)
      ensures ok <==> LoadCompletes(m)
      ensures tilesetCoordinates ==
                if m.tileWidth == 0 || m.tileHeight == 0 then old(tilesetCoordinates)
                else old(tilesetCoordinates) + TilesetTable(TruncDiv(m.imageWidth, m.tileWidth),
                                                            TruncDiv(m.imageHeight, m.tileHeight),
                                                            m.tileWidth, m.tileHeight)
      ensures m.tileWidth != 0 && m.tileHeight != 0 && m.width * m.height >= 0 ==>
                Valid() && |layers| == |m.layers| && forall l | 0 <= l < |layers| :: fresh(layers[l])
      ensures ok ==> Tiles() == seq(|m.layers|, l requires 0 <= l < |m.layers| => LayerTiles(m.layers[l], m.width * m.height))
      ensures colliders == if ok then old(colliders) + GroupColliders(m.groups) else old(colliders)
    {
      mapWidth := m.width;
      mapHeight := m.height;
      tileWidth := m.tileWidth;
      tileHeight := m.tileHeight;
      ok := LoadTileset(m.imageWidth, m.imageHeight);
      if !ok {
        return;
      }
      if mapWidth * mapHeight < 0 {
        return false;
      }
      var size := mapWidth * mapHeight;
      var ls := AllocateLayers(|m.layers|, size);
      layers := ls;
      ok := FillLayers(ls, m.layers, size);
      if !ok {
        return;
      }
      LoadColliders(m.groups);
    }

    /** `new int[n][size]`: `n` distinct arrays of zeros. */
    static method AllocateLayers(n: nat, size: nat) returns (ls: seq<array<int>>)
      ensures |ls| == n
      ensures forall l | 0 <= l < n :: fresh(ls[l]) && ls[l].Length == size && ls[l][..] == seq(size, i => 0)
      ensures forall l, l' | 0 <= l < l' < n :: ls[l] != ls[l']
    {
      ls := [];
      while |ls| < n
        invariant |ls| <= n
        invariant forall l | 0 <= l < |ls| :: fresh(ls[l]) && ls[l].Length == size && ls[l][..] == seq(size, i => 0)
        invariant forall l, l' | 0 <= l < l' < |ls| :: ls[l] != ls[l']
      {
        var a := new int[size](i => 0);
        ls := ls + [a];
      }
    }

    /** The layer loop of `loadMap`: fills the base64 layers in order, stopping at a short one. */
    static method FillLayers(ls: seq<array<int>>, data: seq<LayerData>, size: nat) returns (ok: bool)
      requires |ls| == |data|
      requires forall l | 0 <= l < |ls| :: ls[l].Length == size && ls[l][..] == seq(size, i => 0)
      requires forall l, l' | 0 <= l < l' < |ls| :: ls[l] != ls[l']
      modifies set l | 0 <= l < |ls| :: ls[l]
      ensures ok <==> forall l | 0 <= l < |data| :: Decodable(data[l], size)
      ensures ok ==> forall l | 0 <= l < |ls| :: ls[l][..] == LayerTiles(data[l], size)
    {
      var l := 0;
      while l < |ls|
        invariant 0 <= l <= |ls|
        invariant forall k | 0 <= k < l :: Decodable(data[k], size) && ls[k][..] == LayerTiles(data[k], size)
        invariant forall k | l <= k < |ls| :: ls[k][..] == seq(size, i => 0)
      {
        label Before:
        var filled := LoadLayer(ls[l], data[l]);
        assert forall k | 0 <= k < |ls| && k != l :: ls[k][..] == old@Before(ls[k][..]);
        if !filled {
          return false;
        }
        l := l + 1;
      }
      ok := true;
    }

    /** One layer of the layer loop: a base64 layer is filled, any other stays zero. */
    static method LoadLayer(layer: array<int>, data: LayerData) returns (ok: bool)
      requires layer[..] == seq(layer.Length, i => 0)
      modifies layer
      ensures ok <==> Decodable(data, layer.Length)
      ensures ok ==> layer[..] == LayerTiles(data, layer.Length)
    {
      ok := true;
      if data.encoding == "base64" {
        ok := FillLayer(layer, data.decoded);
      }
    }

    /**
      `paintComponent` after `super.paintComponent`: nothing without a camera, else
      the draws of every layer over the visible range of the camera's position.
    */
    method PaintTiles(panelWidth: int, panelHeight: int) returns (draws: seq<Draw>)
      requires camera != null ==> Valid()
      ensures camera == null ==> draws == []
      ensures camera != null ==>
                var f := Frame(mapWidth, mapHeight, tileWidth, tileHeight, camera.position, tilesetCoordinates);
                var r := VisibleRange(camera.position, panelWidth, panelHeight, tileWidth, tileHeight, mapWidth, mapHeight);
                LayersFit(f, Tiles()) && draws == LayersDraws(f, Tiles(), r)
    {
      if camera == null {
        return [];
      }
      var cameraPos := camera.position;
      var startTileX := TruncDiv(cameraPos.x, tileWidth);
      var startTileY := TruncDiv(cameraPos.y, tileHeight);
      var endTileX := startTileX + TruncDiv(panelWidth, tileWidth) + 2;
      var endTileY := startTileY + TruncDiv(panelHeight, tileHeight) + 2;
      startTileX := Max(0, startTileX);
      startTileY := Max(0, startTileY);
      endTileX := Min(mapWidth, endTileX);
      endTileY := Min(mapHeight, endTileY);
      ghost var r := Range(startTileX, startTileY, endTileX, endTileY);
      assert r == VisibleRange(cameraPos, panelWidth, panelHeight, tileWidth, tileHeight, mapWidth, mapHeight);
      var f := Frame(mapWidth, mapHeight, tileWidth, tileHeight, cameraPos, tilesetCoordinates);
      ghost var tiles := Tiles();
      assert LayersFit(f, tiles);
      draws := [];
      var l := 0;
      while l < |layers|
        invariant 0 <= l <= |layers|
        invariant draws == LayersDraws(f, tiles[..l], r)
      {
        assert tiles[..l + 1][..l] == tiles[..l];
        var layerDraws := PaintLayer(layers[l], f, startTileX, startTileY, endTileX, endTileY);
        draws := draws + layerDraws;
        l := l + 1;
      }
      assert tiles[..l] == tiles;
    }

    /** The rows of one layer over the visible range. */
    static method PaintLayer(layer: array<int>, f: Frame, startTileX: int, startTileY: int, endTileX: int, endTileY: int)
      returns (draws: seq<Draw>)
      requires layer.Length == f.mapWidth * f.mapHeight
      requires InMap(Range(startTileX, startTileY, endTileX, endTileY), f.mapWidth, f.mapHeight)
      ensures draws == RowsDraws(f, layer[..], Range(startTileX, startTileY, endTileX, endTileY), endTileY)
    {
      ghost var r := Range(startTileX, startTileY, endTileX, endTileY);
      draws := [];
      var y := startTileY;
      while y < endTileY
        invariant y == startTileY || startTileY <= y <= endTileY
        invariant draws == RowsDraws(f, layer[..], r, y)
      {
        var row := PaintRow(layer, f, y, startTileX, endTileX);
        draws := draws + row;
        y := y + 1;
      }
    }

    /** The tiles of row `y` from `startTileX` to `endTileX`: the innermost loop of `paintComponent`. */
    static method PaintRow(layer: array<int>, f: Frame, y: int, startTileX: int, endTileX: int)
      returns (draws: seq<Draw>)
      requires layer.Length == f.mapWidth * f.mapHeight && 0 <= y < f.mapHeight
      requires 0 <= startTileX && endTileX <= f.mapWidth
      ensures draws == RowDraws(f, layer[..], y, startTileX, endTileX)
    {
      draws := [];
      var x := startTileX;
      while x < endTileX
        invariant x == startTileX || startTileX <= x <= endTileX
        invariant draws == RowDraws(f, layer[..], y, startTileX, x)
      {
        IndexInLayer(f.mapWidth, f.mapHeight, x, y);
        var tileId := layer[y * f.mapWidth + x];
        assert tileId == TileAt(f, layer[..], x, y);
        if tileId != 0 {
          if tileId in f.table {
            var tileCoords := f.table[tileId];
            draws := draws + [Draw(x * f.tileWidth - f.cam.x, y * f.tileHeight - f.cam.y,
                                   (x + 1) * f.tileWidth - f.cam.x, (y + 1) * f.tileHeight - f.cam.y,
                                   tileCoords.x, tileCoords.y,
                                   tileCoords.x + tileCoords.width, tileCoords.y + tileCoords.height)];
          }
        }
        x := x + 1;
      }
    }

    /** `getColliders`: a copy of the list; later loads do not reach it. */
    method GetColliders() returns (rs: seq<Rect>)
      ensures rs == colliders
    {
      rs := colliders;
    }

    /** `getPreferredSize`: the map in pixels. */
    method GetPreferredSize() returns (width: int, height: int)
      ensures width == mapWidth * tileWidth && height == mapHeight * tileHeight
    {
      width := mapWidth * tileWidth;
      height := mapHeight * tileHeight;
    }
  }

  /** With tiles of positive size, the preferred size holds every map cell. */
  lemma PreferredSizeHoldsMap(mapWidth: int, mapHeight: int, tileWidth: int, tileHeight: int, x: int, y: int)
    requires tileWidth > 0 && tileHeight > 0
    requires 0 <= x < mapWidth && 0 <= y < mapHeight
    ensures 0 <= x * tileWidth && x * tileWidth + tileWidth <= mapWidth * tileWidth
    ensures 0 <= y * tileHeight && y * tileHeight + tileHeight <= mapHeight * tileHeight
  {
    MulMonotone(0, x, tileWidth);
    MulMonotone(x + 1, mapWidth, tileWidth);
    MulMonotone(0, y, tileHeight);
    MulMonotone(y + 1, mapHeight, tileHeight);
  }
}

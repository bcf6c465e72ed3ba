/** `StructureGenerators`: procedural block plans. Every generator is a pure function from a
    start position, dimensions and a material list to a plan, in the order the Java generators' nested
    loops emit placements. Dimensions are Java `int`s: a non-positive extent makes its loop
    run zero times. */
module Generators {
  import opened Wrappers
  import opened Blocks
  import opened Loops
  import opened JavaMath
  import Text

  /** `getMaterial`: slot `index` of the material list, wrapping around; oak planks when the
      list is empty. */
  function GetMaterial(materials: seq<Block>, index: nat): (b: Block)
    ensures |materials| == 0 ==> b == OakPlanks
    ensures |materials| > 0 ==> b in materials
    ensures index < |materials| ==> b == materials[index]
  {
    if |materials| == 0 then OakPlanks else materials[index % |materials|]
  }

  /** Short lists wrap around: with one material every slot is that material, and with two
      materials slot 2 is the first again. */
  lemma GetMaterialWraps(materials: seq<Block>)
    ensures |materials| == 1 ==> GetMaterial(materials, 1) == materials[0] && GetMaterial(materials, 2) == materials[0]
    ensures |materials| == 2 ==> GetMaterial(materials, 2) == materials[0]
  {
  }

  /** The placement of `block` at offset `(x, y, z)` from `start`. */
  function At(start: Pos, x: int, y: int, z: int, block: Block): Placement {
    Placement(start.Offset(x, y, z), block)
  }

  /** A horizontal layer cell at height `y`, indexed by `(x, z)`. */
  function LayerCell(start: Pos, y: int, block: Block): (int, int) -> Placement {
    (x, z) => At(start, x, y, z, block)
  }

  /** A full `w`×`d` layer of one block at height `y`, `x` outer and `z` inner. */
  function Layer(start: Pos, w: int, d: int, y: int, block: Block): seq<Placement> {
    Cells(w, d, LayerCell(start, y, block))
  }

  /** Every placement of a layer is at its height and in its `w`×`d` rectangle. */
  predicate InLayer(start: Pos, w: int, d: int, y: int, block: Block, p: Placement) {
    && p.block == block
    && p.pos.y == start.y + y
    && 0 <= p.pos.x - start.x < w
    && 0 <= p.pos.z - start.z < d
  }

  /** A layer has `w`·`d` placements, all of one block, at one height, inside the rectangle. */
  lemma LayerShape(start: Pos, w: int, d: int, y: int, block: Block)
    ensures |Layer(start, w, d, y, block)| == Trips(0, w) * Trips(0, d)
    ensures All(Layer(start, w, d, y, block), (p: Placement) => InLayer(start, w, d, y, block, p))
  {
    CellsLength(w, d, LayerCell(start, y, block));
    CellsAll(w, d, LayerCell(start, y, block), (p: Placement) => InLayer(start, w, d, y, block, p));
  }

  /** Cell `(x, z)` of a layer is at position `x * d + z`. */
  lemma LayerIndex(start: Pos, w: int, d: int, y: int, block: Block, x: int, z: int)
    requires 0 <= x < w && 0 <= z < d
    ensures x * d + z < |Layer(start, w, d, y, block)|
    ensures Layer(start, w, d, y, block)[x * d + z] == At(start, x, y, z, block)
  {
    CellsIndex(w, d, LayerCell(start, y, block), x, z);
  }

  // ---- Wall, platform, box ---------------------------------------------------------------

  function WallCell(start: Pos, block: Block): (int, int) -> Placement {
    (x, y) => At(start, x, y, 0, block)
  }

  /** `buildWall`: a `width`×`height` wall in the plane of the start position, material slot 0,
      `x` outer and `y` inner. */
  function Wall(start: Pos, width: int, height: int, materials: seq<Block>): seq<Placement> {
    Cells(width, height, WallCell(start, GetMaterial(materials, 0)))
  }

  /** A wall has `w`·`h` placements, all at the start's `z`, all of material slot 0. */
  lemma WallShape(start: Pos, w: int, h: int, materials: seq<Block>)
    ensures |Wall(start, w, h, materials)| == Trips(0, w) * Trips(0, h)
    ensures All(Wall(start, w, h, materials), (p: Placement) => p.pos.z == start.z && p.block == GetMaterial(materials, 0))
  {
    var cell := WallCell(start, GetMaterial(materials, 0));
    CellsLength(w, h, cell);
    CellsAll(w, h, cell, (p: Placement) => p.pos.z == start.z && p.block == GetMaterial(materials, 0));
  }

  /** Offset `(x, y)` of a wall is at position `x * h + y`: one placement per offset. */
  lemma WallIndex(start: Pos, w: int, h: int, materials: seq<Block>, x: int, y: int)
    requires 0 <= x < w && 0 <= y < h
    ensures x * h + y < |Wall(start, w, h, materials)|
    ensures Wall(start, w, h, materials)[x * h + y] == At(start, x, y, 0, GetMaterial(materials, 0))
  {
    CellsIndex(w, h, WallCell(start, GetMaterial(materials, 0)), x, y);
  }

  /** `buildPlatform`: a `width`×`depth` layer at the start's height, material slot 0. */
  function Platform(start: Pos, width: int, depth: int, materials: seq<Block>): seq<Placement> {
    Layer(start, width, depth, 0, GetMaterial(materials, 0))
  }

  /** A platform has `w`·`d` placements, all at the start's `y`, all of material slot 0. */
  lemma PlatformShape(start: Pos, w: int, d: int, materials: seq<Block>)
    ensures |Platform(start, w, d, materials)| == Trips(0, w) * Trips(0, d)
    ensures All(Platform(start, w, d, materials), (p: Placement) => p.pos.y == start.y && p.block == GetMaterial(materials, 0))
  {
    var block := GetMaterial(materials, 0);
    LayerShape(start, w, d, 0, block);
    forall k | 0 <= k < |Platform(start, w, d, materials)|
      ensures Platform(start, w, d, materials)[k].pos.y == start.y
    {
      assert InLayer(start, w, d, 0, block, Platform(start, w, d, materials)[k]);
    }
  }

  function BoxCell(start: Pos, x: int, block: Block): (int, int) -> Placement {
    (y, z) => At(start, x, y, z, block)
  }

  function BoxSlice(start: Pos, height: int, depth: int, block: Block): int -> seq<Placement> {
    x => Cells(height, depth, BoxCell(start, x, block))
  }

  /** `buildBox`: a solid `width`×`height`×`depth` box of material slot 0, `x` outermost,
      then `y`, then `z`. */
  function Box(start: Pos, width: int, height: int, depth: int, materials: seq<Block>): seq<Placement> {
    Loop(0, width, BoxSlice(start, height, depth, GetMaterial(materials, 0)))
  }

  /** A box has exactly `w`·`h`·`d` placements, none when an extent is not positive. */
  lemma BoxSize(start: Pos, w: int, h: int, d: int, materials: seq<Block>)
    ensures |Box(start, w, h, d, materials)| == Trips(0, w) * (Trips(0, h) * Trips(0, d))
  {
    var block := GetMaterial(materials, 0);
    var slices := BoxSlice(start, h, d, block);
    forall x | 0 <= x < w ensures |slices(x)| == Trips(0, h) * Trips(0, d) {
      CellsLength(h, d, BoxCell(start, x, block));
    }
    LoopLength(0, w, slices, Trips(0, h) * Trips(0, d));
  }

  /** One placement per offset: offset `(x, y, z)` of a box is at position
      `(x * h + y) * d + z`, in material slot 0. */
  lemma BoxIndex(start: Pos, w: int, h: int, d: int, materials: seq<Block>, x: int, y: int, z: int)
    requires 0 <= x < w && 0 <= y < h && 0 <= z < d
    ensures (x * h + y) * d + z < |Box(start, w, h, d, materials)|
    ensures Box(start, w, h, d, materials)[(x * h + y) * d + z] == At(start, x, y, z, GetMaterial(materials, 0))
  {
    var block := GetMaterial(materials, 0);
    var slices := BoxSlice(start, h, d, block);
    var n := h * d;
    var k := y * d + z;
    var i := (x * h + y) * d + z;
    BoxOffset(x, y, z, h, d);
    assert 0 <= k < n && slices(x)[k] == At(start, x, y, z, block) by {
      CellsIndex(h, d, BoxCell(start, x, block), y, z);
    }
    assert i < |Loop(0, w, slices)| && Loop(0, w, slices)[i] == slices(x)[k] by {
      forall t | 0 <= t < w ensures |slices(t)| == n {
        CellsLength(h, d, BoxCell(start, t, block));
      }
      LoopIndex(0, w, slices, n, x, k);
    }
    assert Box(start, w, h, d, materials) == Loop(0, w, slices);
  }

  lemma BoxOffset(x: int, y: int, z: int, h: int, d: int)
    ensures (x * h + y) * d + z == (x - 0) * (h * d) + (y * d + z)
  {
    assert x * (h * d) == (x * h) * d;
    MulDistributes(x * h, y, d);
  }

  // ---- The advanced house ----------------------------------------------------------------

  /** The roof takes material slot 2 unless that is glass or a glass pane, which is replaced
      by oak planks. */
  function RoofMaterial(materials: seq<Block>): (b: Block)
    ensures b != Glass && b != GlassPane
    ensures b == GetMaterial(materials, 2) || b == OakPlanks
  {
    var m := GetMaterial(materials, 2);
    if m == Glass || m == GlassPane then OakPlanks else m
  }

  /** Front wall: the door column at `width / 2` for the two lowest storeys, panes at columns 2
      and `width - 3` between storey 2 and the top storey, the wall material elsewhere. */
  function HouseFront(w: int, h: int, wall: Block, x: int, y: int): Block {
    if x == JavaDiv(w, 2) && y <= 2 then OakDoor
    else if 2 <= y <= h - 1 && (x == 2 || x == w - 3) then GlassPane
    else wall
  }

  /** Back wall: panes at columns 2, `width / 2` and `width - 3`. */
  function HouseBack(w: int, h: int, wall: Block, x: int, y: int): Block {
    if 2 <= y <= h - 1 && (x == 2 || x == JavaDiv(w, 2) || x == w - 3) then GlassPane else wall
  }

  /** Side walls: a pane at every third `z`. */
  function HouseSide(h: int, wall: Block, y: int, z: int): Block {
    if 2 <= y <= h - 1 && z % 3 == 1 then GlassPane else wall
  }

  function HouseFrontBack(start: Pos, w: int, h: int, d: int, wall: Block, y: int): int -> seq<Placement> {
    x => [At(start, x, y, 0, HouseFront(w, h, wall, x, y)), At(start, x, y, d - 1, HouseBack(w, h, wall, x, y))]
  }

  function HouseSides(start: Pos, w: int, h: int, wall: Block, y: int): int -> seq<Placement> {
    z => [At(start, 0, y, z, HouseSide(h, wall, y, z)), At(start, w - 1, y, z, HouseSide(h, wall, y, z))]
  }

  function HouseStorey(start: Pos, w: int, h: int, d: int, wall: Block): int -> seq<Placement> {
    y => Loop(0, w, HouseFrontBack(start, w, h, d, wall, y)) + Loop(1, d - 1, HouseSides(start, w, h, wall, y))
  }

  /** Storeys 1 to `height`: front and back walls column by column, then the side walls. */
  function HouseWalls(start: Pos, w: int, h: int, d: int, wall: Block): seq<Placement> {
    Loop(1, h + 1, HouseStorey(start, w, h, d, wall))
  }

  function RingCell(start: Pos, w: int, d: int, y: int, inset: int, block: Block, x: int): int -> seq<Placement> {
    z => if x == inset || x == w - 1 - inset || z == inset || z == d - 1 - inset then [At(start, x, y, z, block)] else []
  }

  function RingRow(start: Pos, w: int, d: int, y: int, inset: int, block: Block): int -> seq<Placement> {
    x => Loop(inset, d - inset, RingCell(start, w, d, y, inset, block, x))
  }

  /** The border of the rectangle `[inset, w - inset) × [inset, d - inset)` at height `y`. */
  function Ring(start: Pos, w: int, d: int, y: int, inset: int, block: Block): seq<Placement> {
    Loop(inset, w - inset, RingRow(start, w, d, y, inset, block))
  }

  /** The number of roof layers the loop allows: `max(width, depth) / 2 + 1`. */
  function RoofLayerCount(w: int, d: int): int {
    JavaDiv(Max(w, d), 2) + 1
  }

  /** The loop stops after layer `i` once the remaining rectangle is at most one block wide. */
  predicate StopsAfter(w: int, d: int, i: int) {
    w - 2 * i <= 1 || d - 2 * i <= 1
  }

  /** Layers `layer`, `layer + 1`, … of the pyramid roof, each one block higher and one block
      further in, until the layer count runs out or the loop breaks. */
  function RoofLayers(start: Pos, w: int, h: int, d: int, block: Block, layer: int, layers: int): seq<Placement>
    decreases layers - layer
  {
    if layer >= layers then []
    else
      Ring(start, w, d, h + 1 + layer, layer, block)
      + (if StopsAfter(w, d, layer) then [] else RoofLayers(start, w, h, d, block, layer + 1, layers))
  }

  function HouseRoof(start: Pos, w: int, h: int, d: int, block: Block): seq<Placement> {
    RoofLayers(start, w, h, d, block, 0, RoofLayerCount(w, d))
  }

  /** `buildAdvancedHouse`: the floor, the walls, then the pyramid roof. */
  function AdvancedHouse(start: Pos, w: int, h: int, d: int, materials: seq<Block>): seq<Placement> {
    Platform(start, w, d, materials)
    + HouseWalls(start, w, h, d, GetMaterial(materials, 1))
    + HouseRoof(start, w, h, d, RoofMaterial(materials))
  }

  /** The house begins with its floor: a full `w`×`d` platform of material slot 0. */
  lemma HouseStartsWithFloor(start: Pos, w: int, h: int, d: int, materials: seq<Block>)
    ensures var floor := Platform(start, w, d, materials);
      && |floor| == Trips(0, w) * Trips(0, d)
      && |floor| <= |AdvancedHouse(start, w, h, d, materials)|
      && AdvancedHouse(start, w, h, d, materials)[..|floor|] == floor
  {
    PlatformShape(start, w, d, materials);
  }

  /** Where a roof placement of layer `i` may be. */
  predicate InRoofLayer(start: Pos, w: int, h: int, d: int, block: Block, i: int, p: Placement) {
    && p.block == block
    && p.pos.y == start.y + h + 1 + i
    && i <= p.pos.x - start.x < w - i
    && i <= p.pos.z - start.z < d - i
  }

  /** Layer `i` is emitted only if the loop did not break after an earlier layer. */
  predicate ReachedLayer(w: int, d: int, i: int) {
    forall j :: 0 <= j < i ==> !StopsAfter(w, d, j)
  }

  predicate InRoof(start: Pos, w: int, h: int, d: int, block: Block, p: Placement) {
    exists i :: 0 <= i < RoofLayerCount(w, d) && ReachedLayer(w, d, i) && InRoofLayer(start, w, h, d, block, i, p)
  }

  lemma RingShape(start: Pos, w: int, h: int, d: int, inset: int, block: Block)
    ensures All(Ring(start, w, d, h + 1 + inset, inset, block), (p: Placement) => InRoofLayer(start, w, h, d, block, inset, p))
  {
    var P := (p: Placement) => InRoofLayer(start, w, h, d, block, inset, p);
    var rows := RingRow(start, w, d, h + 1 + inset, inset, block);
    forall x | inset <= x < w - inset ensures All(rows(x), P) {
      LoopAll(inset, d - inset, RingCell(start, w, d, h + 1 + inset, inset, block, x), P);
    }
    LoopAll(inset, w - inset, rows, P);
  }

  /** A ring the loop reached lies in the roof. */
  lemma RingInRoof(start: Pos, w: int, h: int, d: int, block: Block, layer: int)
    requires 0 <= layer < RoofLayerCount(w, d) && ReachedLayer(w, d, layer)
    ensures All(Ring(start, w, d, h + 1 + layer, layer, block), (p: Placement) => InRoof(start, w, h, d, block, p))
  {
    var ring := Ring(start, w, d, h + 1 + layer, layer, block);
    RingShape(start, w, h, d, layer, block);
    forall k | 0 <= k < |ring| ensures InRoof(start, w, h, d, block, ring[k]) {
      assert InRoofLayer(start, w, h, d, block, layer, ring[k]);
    }
  }

  lemma ReachedNext(w: int, d: int, layer: int)
    requires ReachedLayer(w, d, layer) && !StopsAfter(w, d, layer)
    ensures ReachedLayer(w, d, layer + 1)
  {
  }

  /** Every roof placement belongs to a layer below the layer count that the loop reached, at
      height `height + 1 + i` and inset by `i`, in the roof material. */
  lemma {:induction false} RoofLayersShape(start: Pos, w: int, h: int, d: int, block: Block, layer: int, layers: int)
    requires 0 <= layer && ReachedLayer(w, d, layer) && layers == RoofLayerCount(w, d)
    ensures All(RoofLayers(start, w, h, d, block, layer, layers), (p: Placement) => InRoof(start, w, h, d, block, p))
    decreases layers - layer
  {
    var P := (p: Placement) => InRoof(start, w, h, d, block, p);
    if layer < layers {
      var ring := Ring(start, w, d, h + 1 + layer, layer, block);
      RingInRoof(start, w, h, d, block, layer);
      var rest := if StopsAfter(w, d, layer) then [] else RoofLayers(start, w, h, d, block, layer + 1, layers);
      if !StopsAfter(w, d, layer) {
        ReachedNext(w, d, layer);
        RoofLayersShape(start, w, h, d, block, layer + 1, layers);
      }
      assert RoofLayers(start, w, h, d, block, layer, layers) == ring + rest;
      AllAppend(ring, rest, P);
    }
  }

  /** The roof is never glass: every roof placement is in the roof material, which is not
      glass or a glass pane, and sits in a layer the loop reached. */
  lemma HouseRoofShape(start: Pos, w: int, h: int, d: int, materials: seq<Block>)
    ensures All(HouseRoof(start, w, h, d, RoofMaterial(materials)),
                (p: Placement) => InRoof(start, w, h, d, RoofMaterial(materials), p) && p.block != Glass && p.block != GlassPane)
  {
    var block := RoofMaterial(materials);
    var roof := HouseRoof(start, w, h, d, block);
    RoofLayersShape(start, w, h, d, block, 0, RoofLayerCount(w, d));
    forall k | 0 <= k < |roof| ensures roof[k].block == block {
      var i :| 0 <= i < RoofLayerCount(w, d) && ReachedLayer(w, d, i) && InRoofLayer(start, w, h, d, block, i, roof[k]);
    }
  }

  /** A wall placement of the house: on storeys 1 to `height`, in the wall material, a pane
      or the door. */
  predicate InHouseWalls(start: Pos, h: int, wall: Block, p: Placement) {
    && 1 <= p.pos.y - start.y <= h
    && (p.block == wall || p.block == GlassPane || p.block == OakDoor)
  }

  lemma HouseWallsShape(start: Pos, w: int, h: int, d: int, wall: Block)
    ensures All(HouseWalls(start, w, h, d, wall), (p: Placement) => InHouseWalls(start, h, wall, p))
  {
    var P := (p: Placement) => InHouseWalls(start, h, wall, p);
    var storeys := HouseStorey(start, w, h, d, wall);
    forall y | 1 <= y < h + 1 ensures All(storeys(y), P) {
      LoopAll(0, w, HouseFrontBack(start, w, h, d, wall, y), P);
      LoopAll(1, d - 1, HouseSides(start, w, h, wall, y), P);
      AllAppend(Loop(0, w, HouseFrontBack(start, w, h, d, wall, y)), Loop(1, d - 1, HouseSides(start, w, h, wall, y)), P);
    }
    LoopAll(1, h + 1, storeys, P);
  }

  /** The house by height, for a non-negative height: the floor level holds only the floor
      material, storeys 1 to `height` only wall material, panes and the door, and everything
      above is roof, never glass. */
  predicate HouseZone(start: Pos, h: int, materials: seq<Block>, p: Placement) {
    var y := p.pos.y - start.y;
    && y >= 0
    && (y == 0 ==> p.block == GetMaterial(materials, 0))
    && (1 <= y <= h ==> p.block == GetMaterial(materials, 1) || p.block == GlassPane || p.block == OakDoor)
    && (y > h ==> p.block == RoofMaterial(materials))
  }

  lemma HouseZones(start: Pos, w: int, h: int, d: int, materials: seq<Block>)
    requires h >= 0
    ensures All(AdvancedHouse(start, w, h, d, materials), (p: Placement) => HouseZone(start, h, materials, p))
  {
    var P := (p: Placement) => HouseZone(start, h, materials, p);
    var floor := Platform(start, w, d, materials);
    var walls := HouseWalls(start, w, h, d, GetMaterial(materials, 1));
    var roof := HouseRoof(start, w, h, d, RoofMaterial(materials));
    PlatformShape(start, w, d, materials);
    HouseWallsShape(start, w, h, d, GetMaterial(materials, 1));
    HouseRoofShape(start, w, h, d, materials);
    forall k | 0 <= k < |walls| ensures P(walls[k]) {
      assert InHouseWalls(start, h, GetMaterial(materials, 1), walls[k]);
    }
    forall k | 0 <= k < |roof| ensures P(roof[k]) {
      var i :| 0 <= i < RoofLayerCount(w, d) && ReachedLayer(w, d, i)
        && InRoofLayer(start, w, h, d, RoofMaterial(materials), i, roof[k]);
    }
    AllAppend(floor, walls, P);
    AllAppend(floor + walls, roof, P);
  }

  // ---- The modern house ------------------------------------------------------------------

  /** Front wall: glass on even columns and above the first storey, quartz elsewhere. */
  function ModernFront(x: int, y: int): Block {
    if x % 2 == 0 || y > 1 then Glass else QuartzBlock
  }

  /** Side walls: glass at every third `z` on storey 2, quartz elsewhere. */
  function ModernSide(y: int, z: int): Block {
    if z % 3 == 1 && y == 2 then Glass else QuartzBlock
  }

  function ModernFrontBack(start: Pos, d: int, y: int): int -> seq<Placement> {
    x => [At(start, x, y, 0, ModernFront(x, y)), At(start, x, y, d - 1, QuartzBlock)]
  }

  function ModernSides(start: Pos, w: int, y: int): int -> seq<Placement> {
    z => [At(start, 0, y, z, ModernSide(y, z)), At(start, w - 1, y, z, ModernSide(y, z))]
  }

  function ModernStorey(start: Pos, w: int, d: int): int -> seq<Placement> {
    y => Loop(0, w, ModernFrontBack(start, d, y)) + Loop(1, d - 1, ModernSides(start, w, y))
  }

  /** `buildModernHouse`: a smooth-stone floor, walls on storeys 1 to `height - 1`, and a flat
      dark-oak roof at `height`. Its materials are fixed; the material list is ignored. */
  function ModernHouse(start: Pos, w: int, h: int, d: int): seq<Placement> {
    Layer(start, w, d, 0, SmoothStone) + Loop(1, h, ModernStorey(start, w, d)) + Layer(start, w, d, h, DarkOakPlanks)
  }

  /** The first `w`·`d` placements are the floor at the start's height, all smooth stone, and
      the last `w`·`d` are the flat roof at `height`, all dark oak planks. */
  lemma ModernFloorAndRoof(start: Pos, w: int, h: int, d: int)
    ensures var house, n := ModernHouse(start, w, h, d), Trips(0, w) * Trips(0, d);
      && 2 * n <= |house|
      && house[..n] == Layer(start, w, d, 0, SmoothStone)
      && house[|house| - n..] == Layer(start, w, d, h, DarkOakPlanks)
      && All(house[..n], (p: Placement) => InLayer(start, w, d, 0, SmoothStone, p))
      && All(house[|house| - n..], (p: Placement) => InLayer(start, w, d, h, DarkOakPlanks, p))
  {
    var floor := Layer(start, w, d, 0, SmoothStone);
    var walls := Loop(1, h, ModernStorey(start, w, d));
    var roof := Layer(start, w, d, h, DarkOakPlanks);
    LayerShape(start, w, d, 0, SmoothStone);
    LayerShape(start, w, d, h, DarkOakPlanks);
    var house := floor + walls + roof;
    assert house[..|floor|] == floor;
    assert house[|house| - |roof|..] == roof;
  }

  // ---- The barn --------------------------------------------------------------------------

  /** The roof height over column `x`: the peak `height + width / 2` over the middle column,
      one lower per column away from it. */
  function BarnRoofY(w: int, h: int, x: int): int {
    h + JavaDiv(w, 2) - Abs(x - JavaDiv(w, 2))
  }

  /** The roof peaks over the middle column and falls away symmetrically on both sides. */
  lemma BarnRoofPeak(w: int, h: int, x: int)
    ensures BarnRoofY(w, h, x) <= h + JavaDiv(w, 2)
    ensures BarnRoofY(w, h, x) == h + JavaDiv(w, 2) <==> x == JavaDiv(w, 2)
    ensures BarnRoofY(w, h, 2 * JavaDiv(w, 2) - x) == BarnRoofY(w, h, x)
  {
  }

  function BarnRoofCell(start: Pos, w: int, h: int): (int, int) -> Placement {
    (x, z) => At(start, x, BarnRoofY(w, h, x), z, SprucePlanks)
  }

  /** Support columns (the ends and the middle) are logs, the rest planks. */
  function BarnPost(w: int, x: int): Block {
    if x == 0 || x == w - 1 || x == JavaDiv(w, 2) then OakLog else OakPlanks
  }

  /** The front and back wall columns, except where the large door opening leaves a gap:
      columns `width / 3` to `2 * width / 3` on storeys 1 and 2. */
  function BarnFrontBack(start: Pos, w: int, d: int, y: int): int -> seq<Placement> {
    x => if JavaDiv(w, 3) <= x <= JavaDiv(2 * w, 3) && y <= 2 then []
         else [At(start, x, y, 0, BarnPost(w, x)), At(start, x, y, d - 1, BarnPost(w, x))]
  }

  function BarnSides(start: Pos, w: int, y: int): int -> seq<Placement> {
    z => [At(start, 0, y, z, OakLog), At(start, w - 1, y, z, OakLog)]
  }

  function BarnStorey(start: Pos, w: int, d: int): int -> seq<Placement> {
    y => Loop(0, w, BarnFrontBack(start, w, d, y)) + Loop(1, d - 1, BarnSides(start, w, y))
  }

  function BarnWalls(start: Pos, w: int, h: int, d: int): seq<Placement> {
    Loop(1, h, BarnStorey(start, w, d))
  }

  function BarnRoof(start: Pos, w: int, h: int, d: int): seq<Placement> {
    Cells(w, d, BarnRoofCell(start, w, h))
  }

  /** `buildBarn`: an oak floor, log-framed walls with a door opening, and a peaked spruce
      roof. Its materials are fixed; the material list is ignored. */
  function Barn(start: Pos, w: int, h: int, d: int): seq<Placement> {
    Layer(start, w, d, 0, OakPlanks) + BarnWalls(start, w, h, d) + BarnRoof(start, w, h, d)
  }

  /** The barn ends with its roof, `w`·`d` spruce placements: column `x`, row `z` is at
      position `x * d + z` of the roof, at height `height + width / 2 - |x - width / 2|`. */
  lemma BarnRoofProfile(start: Pos, w: int, h: int, d: int, x: int, z: int)
    requires 0 <= x < w && 0 <= z < d
    ensures var barn, roof := Barn(start, w, h, d), BarnRoof(start, w, h, d);
      && |roof| == w * d && |roof| <= |barn|
      && barn[|barn| - |roof|..] == roof
      && x * d + z < |roof|
      && roof[x * d + z] == At(start, x, h + JavaDiv(w, 2) - Abs(x - JavaDiv(w, 2)), z, SprucePlanks)
  {
    var roof := BarnRoof(start, w, h, d);
    CellsIndex(w, d, BarnRoofCell(start, w, h), x, z);
    var rest := Layer(start, w, d, 0, OakPlanks) + BarnWalls(start, w, h, d);
    assert (rest + roof)[|rest + roof| - |roof|..] == roof;
  }

  /** The door opening: on storeys 1 and 2, no wall placement at the front (`z` offset 0)
      falls in columns `width / 3` to `2 * width / 3`. */
  predicate OutsideDoor(start: Pos, w: int, p: Placement) {
    p.pos.z == start.z && 1 <= p.pos.y - start.y <= 2 ==>
      !(JavaDiv(w, 3) <= p.pos.x - start.x <= JavaDiv(2 * w, 3))
  }

  lemma BarnDoorOpening(start: Pos, w: int, h: int, d: int)
    ensures All(BarnWalls(start, w, h, d), (p: Placement) => OutsideDoor(start, w, p))
  {
    var P := (p: Placement) => OutsideDoor(start, w, p);
    var storeys := BarnStorey(start, w, d);
    forall y | 1 <= y < h ensures All(storeys(y), P) {
      LoopAll(0, w, BarnFrontBack(start, w, d, y), P);
      LoopAll(1, d - 1, BarnSides(start, w, y), P);
      AllAppend(Loop(0, w, BarnFrontBack(start, w, d, y)), Loop(1, d - 1, BarnSides(start, w, y)), P);
    }
    LoopAll(1, h, storeys, P);
  }

  // ---- The castle ------------------------------------------------------------------------

  /** One cell of the castle's main structure: the stone floor at `y == 0`; above it, only
      edge cells away from the 3×3 corners, which are cleared to air for the gate at the
      middle of the front on storeys 1 to 3, panes on every fourth storey from 2, and
      cobblestone otherwise. */
  function CastleCell(start: Pos, w: int, d: int, y: int, x: int): int -> seq<Placement> {
    z =>
      var isEdge := x == 0 || x == w - 1 || z == 0 || z == d - 1;
      var isCorner := (x <= 2 || x >= w - 3) && (z <= 2 || z >= d - 3);
      if y == 0 then [At(start, x, y, z, StoneBricks)]
      else if isEdge && !isCorner then
        if x == JavaDiv(w, 2) && z == 0 && y <= 3 then
          if 1 <= y <= 3 && JavaDiv(w, 2) - 1 <= x <= JavaDiv(w, 2) + 1 then [At(start, x, y, 0, Air)] else []
        else if y % 4 == 2 then [At(start, x, y, z, GlassPane)]
        else [At(start, x, y, z, Cobblestone)]
      else []
  }

  function CastleRow(start: Pos, w: int, d: int, y: int): int -> seq<Placement> {
    x => Loop(0, d, CastleCell(start, w, d, y, x))
  }

  function CastleLevel(start: Pos, w: int, d: int): int -> seq<Placement> {
    y => Loop(0, w, CastleRow(start, w, d, y))
  }

  /** Levels 0 to `height` of the main structure. */
  function CastleMain(start: Pos, w: int, h: int, d: int): seq<Placement> {
    Loop(0, h + 1, CastleLevel(start, w, d))
  }

  /** One column of a 3×3 corner tower: stone on the floor and on the tower's rim, plus a
      pane on the rim's middle cells every fifth level from 3. */
  function CornerColumn(start: Pos, cx: int, cz: int, y: int, dx: int): int -> seq<Placement> {
    dz =>
      var isTowerEdge := dx == 0 || dx == 2 || dz == 0 || dz == 2;
      (if y == 0 || isTowerEdge then [At(start, cx + dx, y, cz + dz, StoneBricks)] else [])
      + (if y % 5 == 3 && isTowerEdge && (dx == 1 || dz == 1) then [At(start, cx + dx, y, cz + dz, GlassPane)] else [])
  }

  function CornerRow(start: Pos, cx: int, cz: int, y: int): int -> seq<Placement> {
    dx => Loop(0, 3, CornerColumn(start, cx, cz, y, dx))
  }

  function CornerLevel(start: Pos, cx: int, cz: int): int -> seq<Placement> {
    y => Loop(0, 3, CornerRow(start, cx, cz, y))
  }

  function MerlonCell(start: Pos, cx: int, cz: int, top: int, dx: int): int -> seq<Placement> {
    dz => if dx % 2 == 0 || dz % 2 == 0 then [At(start, cx + dx, top, cz + dz, StoneBricks)] else []
  }

  function MerlonRow(start: Pos, cx: int, cz: int, top: int): int -> seq<Placement> {
    dx => Loop(0, 3, MerlonCell(start, cx, cz, top, dx))
  }

  /** A corner tower at `(cx, cz)`: levels 0 to `height + 6`, then its crenellations one
      level higher. */
  function CornerTower(start: Pos, cx: int, cz: int, h: int): seq<Placement> {
    Loop(0, h + 7, CornerLevel(start, cx, cz)) + Loop(0, 3, MerlonRow(start, cx, cz, h + 7))
  }

  /** The four corner towers, in the corner order of `buildCastle`. */
  function CastleTowers(start: Pos, w: int, h: int, d: int): seq<Placement> {
    CornerTower(start, 0, 0, h) + CornerTower(start, w - 3, 0, h)
    + CornerTower(start, 0, d - 3, h) + CornerTower(start, w - 3, d - 3, h)
  }

  /** How many trips `for (i = 0; i < n; i += 2)` makes. */
  function EvenCount(n: int): (c: int)
    ensures forall k :: 0 <= k < c <==> 0 <= k && 2 * k < n
  {
    if n <= 0 then 0 else (n + 1) / 2
  }

  function FrontMerlons(start: Pos, d: int, h: int): int -> seq<Placement> {
    k => [At(start, 2 * k, h + 1, 0, StoneBricks), At(start, 2 * k, h + 2, 0, StoneBricks),
          At(start, 2 * k, h + 1, d - 1, StoneBricks), At(start, 2 * k, h + 2, d - 1, StoneBricks)]
  }

  function SideMerlons(start: Pos, w: int, h: int): int -> seq<Placement> {
    k => [At(start, 0, h + 1, 2 * k, StoneBricks), At(start, 0, h + 2, 2 * k, StoneBricks),
          At(start, w - 1, h + 1, 2 * k, StoneBricks), At(start, w - 1, h + 2, 2 * k, StoneBricks)]
  }

  /** Crenellations on every second block of the front, back and side walls. */
  function WallMerlons(start: Pos, w: int, h: int, d: int): seq<Placement> {
    Loop(0, EvenCount(w), FrontMerlons(start, d, h)) + Loop(0, EvenCount(d), SideMerlons(start, w, h))
  }

  /** `buildCastle`: main structure, corner towers, wall crenellations. Its materials are
      fixed; the material list is ignored. */
  function Castle(start: Pos, w: int, h: int, d: int): seq<Placement> {
    CastleMain(start, w, h, d) + CastleTowers(start, w, h, d) + WallMerlons(start, w, h, d)
  }

  predicate CastleBlock(b: Block) {
    b == StoneBricks || b == Cobblestone || b == GlassPane || b == Air
  }

  /** The castle's bounding box: its footprint is the `w`×`d` rectangle widened to at least
      the 3×3 towers, and its levels run from the floor to the tower crenellations at
      `height + 7` (the wall crenellations at `height + 1` and `height + 2` sit below the
      floor only when the height is very negative). */
  predicate InCastle(start: Pos, w: int, h: int, d: int, p: Placement) {
    && CastleBlock(p.block)
    && Min(0, w - 3) <= p.pos.x - start.x < Max(w, 3)
    && Min(0, d - 3) <= p.pos.z - start.z < Max(d, 3)
    && Min(0, h + 1) <= p.pos.y - start.y <= Max(0, h + 7)
  }

  lemma CastleMainShape(start: Pos, w: int, h: int, d: int)
    ensures All(CastleMain(start, w, h, d), (p: Placement) => InCastle(start, w, h, d, p))
  {
    var P := (p: Placement) => InCastle(start, w, h, d, p);
    forall y | 0 <= y < h + 1 ensures All(CastleLevel(start, w, d)(y), P) {
      forall x | 0 <= x < w ensures All(CastleRow(start, w, d, y)(x), P) {
        LoopAll(0, d, CastleCell(start, w, d, y, x), P);
      }
      LoopAll(0, w, CastleRow(start, w, d, y), P);
    }
    LoopAll(0, h + 1, CastleLevel(start, w, d), P);
  }

  /** Where a corner tower's placements are. */
  predicate InCornerTower(start: Pos, cx: int, cz: int, h: int, p: Placement) {
    && (p.block == StoneBricks || p.block == GlassPane)
    && cx <= p.pos.x - start.x < cx + 3
    && cz <= p.pos.z - start.z < cz + 3
    && Min(0, h + 7) <= p.pos.y - start.y <= Max(0, h + 7)
  }

  lemma CornerColumnShape(start: Pos, cx: int, cz: int, h: int, y: int, dx: int, dz: int)
    requires 0 <= y < h + 7 && 0 <= dx < 3 && 0 <= dz < 3
    ensures All(CornerColumn(start, cx, cz, y, dx)(dz), (p: Placement) => InCornerTower(start, cx, cz, h, p))
  {
    var P := (p: Placement) => InCornerTower(start, cx, cz, h, p);
    var isTowerEdge := dx == 0 || dx == 2 || dz == 0 || dz == 2;
    AllAppend(if y == 0 || isTowerEdge then [At(start, cx + dx, y, cz + dz, StoneBricks)] else [],
              if y % 5 == 3 && isTowerEdge && (dx == 1 || dz == 1) then [At(start, cx + dx, y, cz + dz, GlassPane)] else [],
              P);
  }

  lemma CornerLevelsShape(start: Pos, cx: int, cz: int, h: int)
    ensures All(Loop(0, h + 7, CornerLevel(start, cx, cz)), (p: Placement) => InCornerTower(start, cx, cz, h, p))
  {
    var P := (p: Placement) => InCornerTower(start, cx, cz, h, p);
    forall y | 0 <= y < h + 7 ensures All(CornerLevel(start, cx, cz)(y), P) {
      forall dx | 0 <= dx < 3 ensures All(CornerRow(start, cx, cz, y)(dx), P) {
        forall dz | 0 <= dz < 3 ensures All(CornerColumn(start, cx, cz, y, dx)(dz), P) {
          CornerColumnShape(start, cx, cz, h, y, dx, dz);
        }
        LoopAll(0, 3, CornerColumn(start, cx, cz, y, dx), P);
      }
      LoopAll(0, 3, CornerRow(start, cx, cz, y), P);
    }
    LoopAll(0, h + 7, CornerLevel(start, cx, cz), P);
  }

  lemma CornerMerlonsShape(start: Pos, cx: int, cz: int, h: int)
    ensures All(Loop(0, 3, MerlonRow(start, cx, cz, h + 7)), (p: Placement) => InCornerTower(start, cx, cz, h, p))
  {
    var P := (p: Placement) => InCornerTower(start, cx, cz, h, p);
    var top := h + 7;
    forall dx | 0 <= dx < 3 ensures All(MerlonRow(start, cx, cz, top)(dx), P) {
      forall dz | 0 <= dz < 3 ensures All(MerlonCell(start, cx, cz, top, dx)(dz), P) {
        var cell := MerlonCell(start, cx, cz, top, dx)(dz);
        assert cell == [] || cell == [At(start, cx + dx, top, cz + dz, StoneBricks)];
      }
      LoopAll(0, 3, MerlonCell(start, cx, cz, top, dx), P);
    }
    LoopAll(0, 3, MerlonRow(start, cx, cz, top), P);
  }

  /** A corner tower stays in its 3×3 column, from the ground to its crenellations. */
  lemma CornerTowerShape(start: Pos, cx: int, cz: int, h: int)
    ensures All(CornerTower(start, cx, cz, h), (p: Placement) => InCornerTower(start, cx, cz, h, p))
  {
    CornerLevelsShape(start, cx, cz, h);
    CornerMerlonsShape(start, cx, cz, h);
    AllAppend(Loop(0, h + 7, CornerLevel(start, cx, cz)), Loop(0, 3, MerlonRow(start, cx, cz, h + 7)),
              (p: Placement) => InCornerTower(start, cx, cz, h, p));
  }

  lemma CornerTowerInCastle(start: Pos, w: int, h: int, d: int, cx: int, cz: int)
    requires cx == 0 || cx == w - 3
    requires cz == 0 || cz == d - 3
    ensures All(CornerTower(start, cx, cz, h), (p: Placement) => InCastle(start, w, h, d, p))
  {
    var t := CornerTower(start, cx, cz, h);
    CornerTowerShape(start, cx, cz, h);
    forall k | 0 <= k < |t| ensures InCastle(start, w, h, d, t[k]) {
      TowerPointInCastle(start, w, h, d, cx, cz, t[k]);
    }
  }

  lemma TowerPointInCastle(start: Pos, w: int, h: int, d: int, cx: int, cz: int, p: Placement)
    requires cx == 0 || cx == w - 3
    requires cz == 0 || cz == d - 3
    requires InCornerTower(start, cx, cz, h, p)
    ensures InCastle(start, w, h, d, p)
  {
  }

  lemma WallMerlonsShape(start: Pos, w: int, h: int, d: int)
    ensures All(WallMerlons(start, w, h, d), (p: Placement) => InCastle(start, w, h, d, p))
  {
    var P := (p: Placement) => InCastle(start, w, h, d, p);
    LoopAll(0, EvenCount(w), FrontMerlons(start, d, h), P);
    LoopAll(0, EvenCount(d), SideMerlons(start, w, h), P);
    AllAppend(Loop(0, EvenCount(w), FrontMerlons(start, d, h)), Loop(0, EvenCount(d), SideMerlons(start, w, h)), P);
  }

  /** Every castle placement is stone bricks, cobblestone, a pane or air, inside the bounding box. */
  lemma CastleShape(start: Pos, w: int, h: int, d: int)
    ensures All(Castle(start, w, h, d), (p: Placement) => InCastle(start, w, h, d, p))
  {
    var P := (p: Placement) => InCastle(start, w, h, d, p);
    CastleMainShape(start, w, h, d);
    CornerTowerInCastle(start, w, h, d, 0, 0);
    CornerTowerInCastle(start, w, h, d, w - 3, 0);
    CornerTowerInCastle(start, w, h, d, 0, d - 3);
    CornerTowerInCastle(start, w, h, d, w - 3, d - 3);
    AllAppend(CornerTower(start, 0, 0, h), CornerTower(start, w - 3, 0, h), P);
    AllAppend(CornerTower(start, 0, 0, h) + CornerTower(start, w - 3, 0, h), CornerTower(start, 0, d - 3, h), P);
    AllAppend(CornerTower(start, 0, 0, h) + CornerTower(start, w - 3, 0, h) + CornerTower(start, 0, d - 3, h),
              CornerTower(start, w - 3, d - 3, h), P);
    WallMerlonsShape(start, w, h, d);
    AllAppend(CastleMain(start, w, h, d), CastleTowers(start, w, h, d), P);
    AllAppend(CastleMain(start, w, h, d) + CastleTowers(start, w, h, d), WallMerlons(start, w, h, d), P);
  }

  /** The castle's level 0 is exactly a stone-brick layer. */
  lemma CastleGroundLevel(start: Pos, w: int, d: int)
    ensures CastleLevel(start, w, d)(0) == Layer(start, w, d, 0, StoneBricks)
  {
    var cell := LayerCell(start, 0, StoneBricks);
    forall x | 0 <= x < w ensures CastleRow(start, w, d, 0)(x) == CellRow(d, cell)(x) {
      LoopCongruent(0, d, CastleCell(start, w, d, 0, x), CellOne(cell, x));
    }
    LoopCongruent(0, w, CastleRow(start, w, d, 0), CellRow(d, cell));
  }

  /** For a non-negative height the castle begins with a full stone-brick floor. */
  lemma CastleStartsWithFloor(start: Pos, w: int, h: int, d: int)
    requires h >= 0
    ensures var floor := Layer(start, w, d, 0, StoneBricks);
      |floor| <= |Castle(start, w, h, d)| && Castle(start, w, h, d)[..|floor|] == floor
  {
    var floor := Layer(start, w, d, 0, StoneBricks);
    CastleGroundLevel(start, w, d);
    var upper := Loop(1, h + 1, CastleLevel(start, w, d));
    assert CastleMain(start, w, h, d) == floor + upper;
    var towers, merlons := CastleTowers(start, w, h, d), WallMerlons(start, w, h, d);
    assert Castle(start, w, h, d) == floor + upper + towers + merlons;
    PrefixOfAppend(floor, upper, towers, merlons);
  }

  // ---- The tower ------------------------------------------------------------------------

  /** One cell of a tower storey: the stone floor at `y == 0`; above it only the rim, with
      chiseled corners, panes in the middle of each side every third storey from 2, stone
      bricks otherwise. */
  function TowerCell(start: Pos, w: int, y: int, x: int): int -> seq<Placement> {
    z =>
      var isEdge := x == 0 || x == w - 1 || z == 0 || z == w - 1;
      var isCorner := (x == 0 || x == w - 1) && (z == 0 || z == w - 1);
      if y == 0 then [At(start, x, y, z, StoneBricks)]
      else if isEdge then
        if y % 3 == 2 && !isCorner && (x == JavaDiv(w, 2) || z == JavaDiv(w, 2)) then [At(start, x, y, z, GlassPane)]
        else if isCorner then [At(start, x, y, z, ChiseledStoneBricks)]
        else [At(start, x, y, z, StoneBricks)]
      else []
  }

  function TowerRow(start: Pos, w: int, y: int): int -> seq<Placement> {
    x => Loop(0, w, TowerCell(start, w, y, x))
  }

  function TowerStorey(start: Pos, w: int): int -> seq<Placement> {
    y => Loop(0, w, TowerRow(start, w, y))
  }

  /** Roof layer `i`: the border of the square inset by `i`, at height `height + i`. */
  function TowerRoofLayer(start: Pos, w: int, h: int): int -> seq<Placement> {
    i => Ring(start, w, w, h + i, i, DarkOakStairs)
  }

  /** `buildAdvancedTower`: a square `width`×`width` body of storeys 0 to `height - 1`, then a
      stepped pyramid roof of `width / 2 + 1` layers. Its materials are fixed; the material list
      and the depth are ignored. */
  function AdvancedTower(start: Pos, w: int, h: int): seq<Placement> {
    Loop(0, h, TowerStorey(start, w)) + Loop(0, JavaDiv(w, 2) + 1, TowerRoofLayer(start, w, h))
  }

  predicate TowerBlock(b: Block) {
    b == StoneBricks || b == ChiseledStoneBricks || b == GlassPane || b == DarkOakStairs
  }

  /** The tower's bounding box: the `width`×`width` square, from the floor to the roof's top
      layer at `height + width / 2`. */
  predicate InTower(start: Pos, w: int, h: int, p: Placement) {
    && TowerBlock(p.block)
    && 0 <= p.pos.x - start.x < w
    && 0 <= p.pos.z - start.z < w
    && Min(0, h) <= p.pos.y - start.y < Max(0, h) + JavaDiv(w, 2) + 1
  }

  lemma TowerRoofShape(start: Pos, w: int, h: int)
    ensures All(Loop(0, JavaDiv(w, 2) + 1, TowerRoofLayer(start, w, h)), (p: Placement) => InTower(start, w, h, p))
  {
    var P := (p: Placement) => InTower(start, w, h, p);
    forall i | 0 <= i < JavaDiv(w, 2) + 1 ensures All(TowerRoofLayer(start, w, h)(i), P) {
      var ring := Ring(start, w, w, (h - 1) + 1 + i, i, DarkOakStairs);
      RingShape(start, w, h - 1, w, i, DarkOakStairs);
      forall k | 0 <= k < |ring| ensures P(ring[k]) {
        assert InRoofLayer(start, w, h - 1, w, DarkOakStairs, i, ring[k]);
      }
    }
    LoopAll(0, JavaDiv(w, 2) + 1, TowerRoofLayer(start, w, h), P);
  }

  /** Every tower placement is one of its four blocks, inside the bounding box. */
  lemma TowerShape(start: Pos, w: int, h: int)
    ensures All(AdvancedTower(start, w, h), (p: Placement) => InTower(start, w, h, p))
  {
    var P := (p: Placement) => InTower(start, w, h, p);
    forall y | 0 <= y < h ensures All(TowerStorey(start, w)(y), P) {
      forall x | 0 <= x < w ensures All(TowerRow(start, w, y)(x), P) {
        LoopAll(0, w, TowerCell(start, w, y, x), P);
      }
      LoopAll(0, w, TowerRow(start, w, y), P);
    }
    LoopAll(0, h, TowerStorey(start, w), P);
    TowerRoofShape(start, w, h);
    AllAppend(Loop(0, h, TowerStorey(start, w)), Loop(0, JavaDiv(w, 2) + 1, TowerRoofLayer(start, w, h)), P);
  }

  /** For a positive height the tower begins with a full `width`×`width` stone-brick floor. */
  lemma TowerStartsWithFloor(start: Pos, w: int, h: int)
    requires h > 0
    ensures var floor := Layer(start, w, w, 0, StoneBricks);
      |floor| <= |AdvancedTower(start, w, h)| && AdvancedTower(start, w, h)[..|floor|] == floor
  {
    var cell := LayerCell(start, 0, StoneBricks);
    forall x | 0 <= x < w ensures TowerRow(start, w, 0)(x) == CellRow(w, cell)(x) {
      LoopCongruent(0, w, TowerCell(start, w, 0, x), CellOne(cell, x));
    }
    LoopCongruent(0, w, TowerRow(start, w, 0), CellRow(w, cell));
    var floor := Layer(start, w, w, 0, StoneBricks);
    var upper := Loop(1, h, TowerStorey(start, w));
    assert Loop(0, h, TowerStorey(start, w)) == floor + upper;
    var roof := Loop(0, JavaDiv(w, 2) + 1, TowerRoofLayer(start, w, h));
    assert AdvancedTower(start, w, h) == floor + upper + roof + [];
    PrefixOfAppend(floor, upper, roof, []);
  }

  // ---- Dispatch --------------------------------------------------------------------------

  datatype Kind = HouseKind | CastleKind | TowerKind | WallKind | PlatformKind | BarnKind | ModernKind | BoxKind

  /** The labels of `generate`'s switch, applied to the lower-cased type name. */
  function KindOf(name: string): Option<Kind> {
    if name == "house" || name == "home" then Some(HouseKind)
    else if name == "castle" || name == "catle" || name == "fort" then Some(CastleKind)
    else if name == "tower" then Some(TowerKind)
    else if name == "wall" then Some(WallKind)
    else if name == "platform" then Some(PlatformKind)
    else if name == "barn" || name == "shed" then Some(BarnKind)
    else if name == "modern" || name == "modern_house" then Some(ModernKind)
    else if name == "box" || name == "cube" then Some(BoxKind)
    else None
  }

  /** `generate`: dispatch on the lower-cased type; any other type builds a house of at least
      5×4×5. */
  function Generate(structureType: string, start: Pos, w: int, h: int, d: int, materials: seq<Block>): seq<Placement> {
    PlanOf(KindOf(Text.Lower(structureType)), start, w, h, d, materials)
  }

  /** The body of each case of `generate`'s switch. */
  function PlanOf(kind: Option<Kind>, start: Pos, w: int, h: int, d: int, materials: seq<Block>): seq<Placement> {
    match kind
    case Some(HouseKind) => AdvancedHouse(start, w, h, d, materials)
    case Some(CastleKind) => Castle(start, w, h, d)
    case Some(TowerKind) => AdvancedTower(start, w, h)
    case Some(WallKind) => Wall(start, w, h, materials)
    case Some(PlatformKind) => Platform(start, w, d, materials)
    case Some(BarnKind) => Barn(start, w, h, d)
    case Some(ModernKind) => ModernHouse(start, w, h, d)
    case Some(BoxKind) => Box(start, w, h, d, materials)
    case None => AdvancedHouse(start, Max(5, w), Max(4, h), Max(5, d), materials)
  }

  /** The type name is matched without regard to ASCII case. */
  lemma GenerateIgnoresCase(structureType: string, start: Pos, w: int, h: int, d: int, materials: seq<Block>)
    ensures Generate(Text.Lower(structureType), start, w, h, d, materials) == Generate(structureType, start, w, h, d, materials)
  {
    Text.LowerIdempotent(structureType);
  }

  /** An unknown type builds the house `"house"` builds, with width, height and depth raised
      to at least 5, 4 and 5. */
  lemma UnknownTypeBuildsLargerHouse(structureType: string, house: string, start: Pos, w: int, h: int, d: int,
                                     materials: seq<Block>)
    requires KindOf(Text.Lower(structureType)).None? && Text.Lower(house) == "house"
    ensures Generate(structureType, start, w, h, d, materials)
         == Generate(house, start, Max(5, w), Max(4, h), Max(5, d), materials)
  {
    assert KindOf("house") == Some(HouseKind);
    assert Generate(house, start, Max(5, w), Max(4, h), Max(5, d), materials)
        == PlanOf(Some(HouseKind), start, Max(5, w), Max(4, h), Max(5, d), materials);
  }

  /** Names the switch sends to the same case generate the same plan. */
  lemma SameCase(a: string, b: string, start: Pos, w: int, h: int, d: int, materials: seq<Block>)
    requires KindOf(Text.Lower(a)) == KindOf(Text.Lower(b))
    ensures Generate(a, start, w, h, d, materials) == Generate(b, start, w, h, d, materials)
  {
  }

  /** The labels of each case of the switch. */
  lemma CaseLabels()
    ensures KindOf("house") == KindOf("home") == Some(HouseKind)
    ensures KindOf("castle") == KindOf("catle") == KindOf("fort") == Some(CastleKind)
    ensures KindOf("barn") == KindOf("shed") == Some(BarnKind)
    ensures KindOf("modern") == KindOf("modern_house") == Some(ModernKind)
    ensures KindOf("box") == KindOf("cube") == Some(BoxKind)
  {
    assert "fort"[0] != "home"[0];
    assert "shed"[0] != "home"[0] && "shed"[0] != "fort"[0] && "shed"[0] != "wall"[0] && "shed"[0] != "barn"[0];
    assert "barn"[0] != "home"[0] && "barn"[0] != "fort"[0] && "barn"[0] != "wall"[0];
    assert "modern"[0] != "castle"[0];
    assert "cube"[0] != "home"[0] && "cube"[0] != "fort"[0] && "cube"[0] != "wall"[0];
    assert "cube"[0] != "barn"[0] && "cube"[0] != "shed"[0];
  }

  /** The aliases of the switch: names that lower-case to two labels of one case generate the
      same plan. */
  lemma HouseAlias(a: string, b: string, start: Pos, w: int, h: int, d: int, materials: seq<Block>)
    requires Text.Lower(a) == "home" && Text.Lower(b) == "house"
    ensures Generate(a, start, w, h, d, materials) == Generate(b, start, w, h, d, materials)
  {
    CaseLabels();
    SameCase(a, b, start, w, h, d, materials);
  }

  lemma CastleAlias(a: string, b: string, start: Pos, w: int, h: int, d: int, materials: seq<Block>)
    requires (Text.Lower(a) == "catle" || Text.Lower(a) == "fort") && Text.Lower(b) == "castle"
    ensures Generate(a, start, w, h, d, materials) == Generate(b, start, w, h, d, materials)
  {
    CaseLabels();
    SameCase(a, b, start, w, h, d, materials);
  }

  lemma BarnAlias(a: string, b: string, start: Pos, w: int, h: int, d: int, materials: seq<Block>)
    requires Text.Lower(a) == "shed" && Text.Lower(b) == "barn"
    ensures Generate(a, start, w, h, d, materials) == Generate(b, start, w, h, d, materials)
  {
    CaseLabels();
    SameCase(a, b, start, w, h, d, materials);
  }

  lemma ModernAlias(a: string, b: string, start: Pos, w: int, h: int, d: int, materials: seq<Block>)
    requires Text.Lower(a) == "modern_house" && Text.Lower(b) == "modern"
    ensures Generate(a, start, w, h, d, materials) == Generate(b, start, w, h, d, materials)
  {
    CaseLabels();
    SameCase(a, b, start, w, h, d, materials);
  }

  lemma BoxAlias(a: string, b: string, start: Pos, w: int, h: int, d: int, materials: seq<Block>)
    requires Text.Lower(a) == "cube" && Text.Lower(b) == "box"
    ensures Generate(a, start, w, h, d, materials) == Generate(b, start, w, h, d, materials)
  {
    CaseLabels();
    SameCase(a, b, start, w, h, d, materials);
  }

  lemma PrefixOfAppend(a: seq<Placement>, b: seq<Placement>, c: seq<Placement>, e: seq<Placement>)
    ensures |a| <= |a + b + c + e| && (a + b + c + e)[..|a|] == a
  {
    assert a + b + c + e == a + (b + c + e);
  }
}

/** Block positions, block kinds and placements: the values every plan is made of. */
module Blocks {

  /** A block position: Minecraft's `BlockPos`, an integer triple. */
  datatype Pos = Pos(x: int, y: int, z: int) {

    /** `BlockPos.offset(dx, dy, dz)`. */
    function Offset(dx: int, dy: int, dz: int): Pos {
      Pos(x + dx, y + dy, z + dz)
    }
  }

  /** The block kinds the model names, plus any other registry entry by its resource id. */
  datatype Block =
    | Air
    | OakPlanks
    | Cobblestone
    | Glass
    | GlassPane
    | OakDoor
    | StoneBricks
    | ChiseledStoneBricks
    | DarkOakStairs
    | QuartzBlock
    | SmoothStone
    | DarkOakPlanks
    | OakLog
    | SprucePlanks
    | Other(id: string)

  /** One instruction of a plan: put `block` at `pos`. Immutable, as Java's `BlockPlacement` is. */
  datatype Placement = Placement(pos: Pos, block: Block)
}

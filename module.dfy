/**
 * The course modules of the golf game (src/game/module.rs): axis-aligned boxes the ball
 * may be over. Each `update` only compares the ball's centre with the module's box and
 * reports what the ball touches; it reads the ball and changes neither the ball nor the
 * module, so here it is a function of the module and the ball's position.
 */
module GolfModule {
  import opened Vec

  /** `TILE_SIZE`: the side of one module tile, in game units (the ball's radius is 1). */
  const TileSize: int := 4

  /** The drag every module reports for a ball rolling over it. */
  const ModuleDrag: real := 0.98

  /** `BallInteraction`: what a module reports about the ball. */
  datatype BallInteraction = Out | In(drag: real) | Dead | Win

  /** `Vec2<i32>`: a module's position or size, in game units. */
  datatype IVec2 = IVec2(x: int, y: int)

  /**
   * The two kinds of module: a grass rectangle of `size` tiles, and the 4 x 4 tile finish
   * square with the hole in its middle.
   */
  datatype Module = EmptyModule(pos: IVec2, size: IVec2) | SquareEndModule(pos: IVec2)

  /** `EmptyModule::new_rect`. */
  function NewRect(offset: IVec2, sizeX: int, sizeY: int): Module
  {
    EmptyModule(offset, IVec2(sizeX, sizeY))
  }

  /** `SquareEndModule::new_4x4`. */
  function New4x4(offset: IVec2): Module
  {
    SquareEndModule(offset)
  }

  /** The point `p` lies in the closed box `[x0, x1] x [y0, y1]`. */
  predicate Within(p: Vec2, x0: int, x1: int, y0: int, y1: int)
  {
    x0 as real <= p.x <= x1 as real && y0 as real <= p.y <= y1 as real
  }

  /** The ball (radius 1) centred at `ball` is clear of the box `[x0, x1] x [y0, y1]`: the test both updates make. */
  predicate Apart(ball: Vec2, x0: int, x1: int, y0: int, y1: int)
  {
    ball.x + 1.0 < x0 as real || ball.x - 1.0 > x1 as real
    || ball.y + 1.0 < y0 as real || ball.y - 1.0 > y1 as real
  }

  /**
   * `EmptyModule::update`: `Out` exactly when the ball's centre lies outside the module's
   * box widened by the ball's radius, and otherwise `In` with the grass drag; never
   * `Dead` or `Win`.
   */
  function EmptyUpdate(pos: IVec2, size: IVec2, ball: Vec2): (r: BallInteraction)
    ensures r == Out <==>
      !Within(ball, pos.x - 1, pos.x + TileSize * size.x + 1, pos.y - 1, pos.y + TileSize * size.y + 1)
    ensures r != Out ==> r == In(ModuleDrag)
  {
    if Apart(ball, pos.x, pos.x + size.x * TileSize, pos.y, pos.y + size.y * TileSize) then Out
    else In(ModuleDrag)
  }

  /**
   * `SquareEndModule::update`: `Out` exactly when the ball's centre lies outside the
   * 16 x 16 square widened by the radius; `Win` exactly when it lies within one unit of
   * the 2 x 2 hole at the square's centre (offsets 6 to 10 on both axes); `In` with the
   * grass drag in between.
   */
  function SquareEndUpdate(pos: IVec2, ball: Vec2): (r: BallInteraction)
    ensures r == Out <==> !Within(ball, pos.x - 1, pos.x + 17, pos.y - 1, pos.y + 17)
    ensures r == Win <==> Within(ball, pos.x + 6, pos.x + 10, pos.y + 6, pos.y + 10)
    ensures r != Out && r != Win ==> r == In(ModuleDrag)
  {
    if Apart(ball, pos.x, pos.x + 4 * TileSize, pos.y, pos.y + 4 * TileSize) then Out
    else if Apart(ball, pos.x + 2 * TileSize - 1, pos.x + 2 * TileSize + 1,
                  pos.y + 2 * TileSize - 1, pos.y + 2 * TileSize + 1) then In(ModuleDrag)
    else Win
  }

  /** `Module::update`, dispatched on the kind of module. No module ever reports `Dead`. */
  function Interact(m: Module, ball: Vec2): (r: BallInteraction)
    ensures r != Dead
    ensures r.In? ==> r.drag == ModuleDrag
    ensures r.Win? ==> m.SquareEndModule?
  {
    match m
    case EmptyModule(pos, size) => EmptyUpdate(pos, size, ball)
    case SquareEndModule(pos) => SquareEndUpdate(pos, ball)
  }

  /** The box a module covers, widened by the ball's radius: the region where it does not report `Out`. */
  predicate Over(m: Module, ball: Vec2)
  {
    match m
    case EmptyModule(pos, size) =>
      Within(ball, pos.x - 1, pos.x + TileSize * size.x + 1, pos.y - 1, pos.y + TileSize * size.y + 1)
    case SquareEndModule(pos) => Within(ball, pos.x - 1, pos.x + 17, pos.y - 1, pos.y + 17)
  }

  /** A module reports something other than `Out` exactly when the ball is over it; a `Win` in particular. */
  lemma WinImpliesOver(m: Module, ball: Vec2)
    ensures Interact(m, ball) != Out <==> Over(m, ball)
    ensures Interact(m, ball) == Win ==> Over(m, ball)
  {
  }
}

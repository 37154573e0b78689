/** The game state the strategy reads and the requests it writes.

    Everything the strategy asks the game library (occupancy, attackers,
    paths, affordability, unit statistics) is an uninterpreted function held
    by a `Board`; every `attempt_spawn`, `attempt_upgrade` and
    `attempt_remove` becomes one `Request` in the turn's plan, with no
    guarantee that the game applies it. */
module Game {

  datatype Option<T> = None | Some(value: T)

  /** A board coordinate `[x, y]`. */
  datatype Cell = Cell(x: int, y: int)

  /** The six unit kinds whose shorthands are read from the game config:
      three stationary (filter, encryptor, destructor) and three mobile. */
  datatype UnitKind = Filter | Encryptor | Destructor | Ping | Emp | Scrambler {
    predicate IsMobile() {
      this == Ping || this == Emp || this == Scrambler
    }
  }

  /** A unit on the board; `playerIndex` is 0 for us and 1 for the opponent. */
  datatype Unit = Unit(kind: UnitKind, playerIndex: int)

  /** The queries of the game library, as seen by the strategy. */
  datatype Board = Board(
    /** `contains_stationary_unit(location)`: the stationary unit there, if any. */
    stationaryAt: Cell -> Option<Unit>,
    /** `game_map[location]`: every unit on a location. */
    unitsAt: Cell -> seq<Unit>,
    /** The locations `for location in game_map` visits, in order. */
    locations: seq<Cell>,
    /** `get_attackers(location, player_index)`. */
    attackers: (Cell, int) -> seq<Unit>,
    /** `find_path_to_edge(location)`. */
    pathToEdge: Cell -> seq<Cell>,
    /** `number_affordable(kind)`. */
    affordable: UnitKind -> int,
    /** `GameUnit(kind, config).cost[BITS]`. */
    bitsCost: UnitKind -> int,
    /** `GameUnit(DESTRUCTOR, config).damage_i`. */
    destructorDamage: int)

  /** A request issued during a turn; `num` is the repeat count of a spawn. */
  datatype Request =
    | Spawn(kind: UnitKind, cells: seq<Cell>, num: int)
    | Upgrade(cells: seq<Cell>)
    | Remove(cells: seq<Cell>)

  /** The board is `ArenaSize` cells wide; each player owns half of it. */
  const ArenaSize: int := 28
  const HalfArena: int := 14

  /** Reflection through the board's vertical mid-line. */
  function Mirror(c: Cell): Cell {
    Cell(ArenaSize - 1 - c.x, c.y)
  }

  /** Cells holding some stationary unit. */
  function IsOccupied(b: Board): Cell -> bool {
    c => b.stationaryAt(c).Some?
  }

  /** Cells holding no stationary unit. */
  function IsFree(b: Board): Cell -> bool {
    c => b.stationaryAt(c).None?
  }

  /** Cells holding a stationary unit of kind `k`. */
  function Holds(b: Board, k: UnitKind): Cell -> bool {
    c => b.stationaryAt(c).Some? && b.stationaryAt(c).value.kind == k
  }
}

/** `choose_attack`: scores the opponent's front corners and board halves
    and picks one of four attack codes.

    The source builds the left and right corner cell lists from identical
    literals and asks the same attacker query for both, so the two corner
    scores always agree and code 1 is never returned. The left secondary
    loop appends the occupant of a stale loop variable rather than of the
    cell it tests; only the number of appended values is used, so this does
    not change the score. */
module Attack {
  import opened Game
  import opened Seqs

  /** `primary_l`. */
  const PrimaryLeft: seq<Cell> :=
    [Cell(0, 14), Cell(1, 14), Cell(2, 14), Cell(3, 14)]

  /** `secondary_l`. */
  const SecondaryLeft: seq<Cell> :=
    [Cell(1, 15), Cell(2, 15), Cell(3, 15), Cell(2, 16), Cell(3, 16), Cell(3, 17)]

  /** `primary_r`: the same literal as `primary_l`. */
  const PrimaryRight: seq<Cell> :=
    [Cell(0, 14), Cell(1, 14), Cell(2, 14), Cell(3, 14)]

  /** `secondary_r`: the same literal as `secondary_l`. */
  const SecondaryRight: seq<Cell> :=
    [Cell(1, 15), Cell(2, 15), Cell(3, 15), Cell(2, 16), Cell(3, 16), Cell(3, 17)]

  /** The cell whose attackers both corner scores count. */
  const AttackProbe: Cell := Cell(2, 13)

  // ---------------------------------------------------------------------
  // Corner scores

  /** The list `filters_in_primary_*`: the filter on each cell that holds one. */
  function FiltersIn(b: Board, cells: seq<Cell>): (found: seq<Unit>)
    ensures |found| == Count(cells, Holds(b, Filter))
    ensures forall u :: u in found ==> u.kind == Filter
  {
    if |cells| == 0 then []
    else if Holds(b, Filter)(cells[0]) then [b.stationaryAt(cells[0]).value] + FiltersIn(b, cells[1..])
    else FiltersIn(b, cells[1..])
  }

  /** The list `filters_in_secondary_*`: for every occupied cell `y` of
      `cells`, the value `contains_stationary_unit(probe(y))` is appended.
      Its length counts the occupied cells whatever `probe` reads. */
  function SecondaryTally(b: Board, cells: seq<Cell>, probe: Cell -> Cell): (tally: seq<Option<Unit>>)
    ensures |tally| == Count(cells, IsOccupied(b))
  {
    if |cells| == 0 then []
    else if b.stationaryAt(cells[0]).Some? then [b.stationaryAt(probe(cells[0]))] + SecondaryTally(b, cells[1..], probe)
    else SecondaryTally(b, cells[1..], probe)
  }

  /** The left secondary loop reads `x`, left over from the primary loop:
      the last primary cell, whatever cell the loop examines. */
  function StaleProbe(): Cell -> Cell {
    _ => PrimaryLeft[|PrimaryLeft| - 1]
  }

  /** The right secondary loop reads the cell it tests. */
  function SelfProbe(): Cell -> Cell {
    c => c
  }

  /** `left`, as computed in the source. */
  function LeftCornerScore(b: Board): int {
    |FiltersIn(b, PrimaryLeft)| + |SecondaryTally(b, SecondaryLeft, StaleProbe())|
      + 3 * |b.attackers(AttackProbe, 0)|
  }

  /** `right`, as computed in the source. */
  function RightCornerScore(b: Board): int {
    |FiltersIn(b, PrimaryRight)| + |SecondaryTally(b, SecondaryRight, SelfProbe())|
      + 3 * |b.attackers(AttackProbe, 0)|
  }

  /** What both corner scores measure: filters on the primary cells, plus any
      stationary unit on the secondary cells, plus three per unit that can
      attack [2, 13]. */
  function CornerScore(b: Board): nat {
    Count(PrimaryLeft, Holds(b, Filter)) + Count(SecondaryLeft, IsOccupied(b))
      + 3 * |b.attackers(AttackProbe, 0)|
  }

  lemma CornerScoresAgree(b: Board)
    ensures LeftCornerScore(b) == CornerScore(b)
    ensures RightCornerScore(b) == CornerScore(b)
  {
  }

  // ---------------------------------------------------------------------
  // Side cell lists

  /** The cells `[x, y + 14]` the side loops
      `for x in range(x0, x0 + 14): for y in range(14, 28)` visit, in loop
      order: position `i` has `x = x0 + i / 14` and `y = 14 + i % 14`. */
  function SideBlock(x0: int): (cells: seq<Cell>)
    ensures |cells| == 196
  {
    seq(196, i requires 0 <= i < 196 => Cell(x0 + i / 14, 28 + i % 14))
  }

  /** The test of the `left_side` loop (`left`) or of the `right_side` loop. */
  function Keep(left: bool, x: int, y: int): bool {
    if left then x >= y - 14 else x < y + 14
  }

  /** The loop test, applied to the appended cell `[x, y + 14]`. */
  function KeptBy(left: bool): Cell -> bool {
    (c: Cell) => Keep(left, c.x, c.y - 14)
  }

  /** `left_side`: columns `range(14)`. */
  function LeftSide(): seq<Cell> {
    Seqs.Filter(SideBlock(0), KeptBy(true))
  }

  /** `right_side`: columns `range(14, 28)`. */
  function RightSide(): seq<Cell> {
    Seqs.Filter(SideBlock(HalfArena), KeptBy(false))
  }

  /** Position `(x - x0) * 14 + (y - 14)` of a block holds `[x, y + 14]`. */
  lemma SideBlockAt(x0: int, x: int, y: int)
    requires x0 <= x < x0 + 14 && 14 <= y < 28
    ensures SideBlock(x0)[(x - x0) * 14 + (y - 14)] == Cell(x, y + 14)
  {
    var k := (x - x0) * 14 + (y - 14);
    assert k / 14 == x - x0 && k % 14 == y - 14;
  }

  /** Filtering one more block position appends that cell when it is kept. */
  lemma FilterStep(s: seq<Cell>, k: int, p: Cell -> bool)
    requires 0 <= k < |s|
    ensures Seqs.Filter(s[..k + 1], p) == Seqs.Filter(s[..k], p) + (if p(s[k]) then [s[k]] else [])
  {
    assert s[..k + 1] == s[..k] + [s[k]];
    FilterAppend(s[..k], [s[k]], p);
  }

  /** One step of the side loops at `[x, y]`: the filtered prefix grows by
      `[x, y + 14]` exactly when the loop test holds. */
  lemma SideStep(x0: int, left: bool, x: int, y: int)
    requires x0 <= x < x0 + 14 && 14 <= y < 28
    ensures Seqs.Filter(SideBlock(x0)[..(x - x0) * 14 + (y - 14) + 1], KeptBy(left))
      == Seqs.Filter(SideBlock(x0)[..(x - x0) * 14 + (y - 14)], KeptBy(left))
        + (if Keep(left, x, y) then [Cell(x, y + 14)] else [])
  {
    SideBlockAt(x0, x, y);
    FilterStep(SideBlock(x0), (x - x0) * 14 + (y - 14), KeptBy(left));
  }

  /** The nested side loops as the source writes them build exactly the
      filtered block. */
  method BuildSide(x0: int, left: bool) returns (cells: seq<Cell>)
    ensures cells == Seqs.Filter(SideBlock(x0), KeptBy(left))
  {
    cells := [];
    var x := x0;
    while x < x0 + 14
      invariant x0 <= x <= x0 + 14
      invariant cells == Seqs.Filter(SideBlock(x0)[..(x - x0) * 14], KeptBy(left))
    {
      var y := 14;
      while y < 28
        invariant 14 <= y <= 28
        invariant cells == Seqs.Filter(SideBlock(x0)[..(x - x0) * 14 + (y - 14)], KeptBy(left))
      {
        SideStep(x0, left, x, y);
        if Keep(left, x, y) {
          cells := cells + [Cell(x, y + 14)];
        }
        y := y + 1;
      }
      x := x + 1;
    }
    assert SideBlock(x0)[..196] == SideBlock(x0);
  }

  /** A block holds every cell of its 14 columns in rows 28 to 41. */
  lemma SideBlockCells(x0: int)
    ensures forall c :: c in SideBlock(x0) <==> x0 <= c.x < x0 + 14 && 28 <= c.y < 42
  {
    var block := SideBlock(x0);
    forall c: Cell | x0 <= c.x < x0 + 14 && 28 <= c.y < 42
      ensures c in block
    {
      var i := (c.x - x0) * 14 + (c.y - 28);
      assert block[i] == c;
    }
  }

  lemma SideBlockDistinct(x0: int)
    ensures Distinct(SideBlock(x0))
  {
    var block := SideBlock(x0);
    forall i, j | 0 <= i < j < |block|
      ensures block[i] != block[j]
    {
      if i / 14 == j / 14 {
        assert i % 14 != j % 14;
      }
    }
  }

  /** A filtered block holds no cell twice, and exactly the cells of its
      columns in rows 28 to 41 that pass the loop test. */
  lemma SideCells(x0: int, left: bool)
    ensures Distinct(Seqs.Filter(SideBlock(x0), KeptBy(left)))
    ensures forall c :: c in Seqs.Filter(SideBlock(x0), KeptBy(left)) <==>
      x0 <= c.x < x0 + 14 && 28 <= c.y < 42 && Keep(left, c.x, c.y - 14)
  {
    SideBlockCells(x0);
    SideBlockDistinct(x0);
    FilterDistinct(SideBlock(x0), KeptBy(left));
    FilterMembers(SideBlock(x0), KeptBy(left));
  }

  /** `left_side` is the lower-right triangle of the block beyond row 27:
      no cell twice, and exactly the cells with `y - 28 <= x`. */
  lemma LeftSideCells()
    ensures Distinct(LeftSide())
    ensures forall c :: c in LeftSide() <==> 0 <= c.x < 14 && 28 <= c.y < 42 && c.y - 28 <= c.x
  {
    SideCells(0, true);
  }

  /** `1 + 2 + ... + n`. */
  function Staircase(n: int): nat {
    if n <= 0 then 0 else n + Staircase(n - 1)
  }

  /** One more step of the `left_side` loops adds one cell exactly when the
      test `x >= y - 14` holds. */
  lemma LeftStep(x: int, y: int)
    requires 0 <= x < 14 && 14 <= y < 28
    ensures |Seqs.Filter(SideBlock(0)[..x * 14 + (y - 14) + 1], KeptBy(true))|
      == |Seqs.Filter(SideBlock(0)[..x * 14 + (y - 14)], KeptBy(true))| + (if x >= y - 14 then 1 else 0)
  {
    SideStep(0, true, x, y);
  }

  /** Column `x` of `left_side` keeps its lowest `x + 1` cells. */
  lemma LeftColumnSize(x: int)
    requires 0 <= x < 14
    ensures |Seqs.Filter(SideBlock(0)[..x * 14 + 14], KeptBy(true))|
      == |Seqs.Filter(SideBlock(0)[..x * 14], KeptBy(true))| + x + 1
  {
    var y := 14;
    while y < 28
      invariant 14 <= y <= 28
      invariant |Seqs.Filter(SideBlock(0)[..x * 14 + (y - 14)], KeptBy(true))|
        == |Seqs.Filter(SideBlock(0)[..x * 14], KeptBy(true))| + (if y - 14 <= x + 1 then y - 14 else x + 1)
    {
      LeftStep(x, y);
      y := y + 1;
    }
  }

  /** `left_side` has `1 + 2 + ... + 14 = 105` cells. */
  lemma LeftSideSize()
    ensures |LeftSide()| == 105
  {
    var x := 0;
    while x < 14
      invariant 0 <= x <= 14
      invariant |Seqs.Filter(SideBlock(0)[..x * 14], KeptBy(true))| == Staircase(x)
    {
      LeftColumnSize(x);
      x := x + 1;
    }
    assert SideBlock(0)[..196] == SideBlock(0);
    assert Staircase(14) == 105;
  }

  /** `right_side` keeps every cell of its block: 196 distinct cells, all
      beyond row 27. */
  lemma RightSideCells()
    ensures RightSide() == SideBlock(HalfArena) && |RightSide()| == 196
    ensures Distinct(RightSide())
    ensures forall c :: c in RightSide() <==> 14 <= c.x < 28 && 28 <= c.y < 42
  {
    SideCells(HalfArena, false);
    SideBlockCells(HalfArena);
    FilterKeepsPassing(SideBlock(HalfArena), KeptBy(false));
  }

  // ---------------------------------------------------------------------
  // Side values

  /** One pass of a side loop: the filters and, by `elif`, the destructors
      found on `cells`, each list in cell order. */
  function Classify(b: Board, cells: seq<Cell>): (found: (seq<Unit>, seq<Unit>))
    ensures |found.0| == Count(cells, Holds(b, Filter))
    ensures |found.1| == Count(cells, Holds(b, Destructor))
    ensures |found.0| + |found.1| <= |cells|
    ensures forall u :: u in found.0 ==> u.kind == Filter
    ensures forall u :: u in found.1 ==> u.kind == Destructor
  {
    if |cells| == 0 then ([], [])
    else
      var rest := Classify(b, cells[1..]);
      match b.stationaryAt(cells[0])
      case Some(u) =>
        if u.kind == Filter then ([u] + rest.0, rest.1)
        else if u.kind == Destructor then (rest.0, [u] + rest.1)
        else rest
      case None => rest
  }

  /** `len(filters_*_side) + 3 * len(destructors_*_side)`. */
  function SideValue(b: Board, cells: seq<Cell>): (value: nat)
    ensures value <= 3 * |cells|
  {
    var found := Classify(b, cells);
    |found.0| + 3 * |found.1|
  }

  /** What one cell adds to a side value: 1 for a filter, 3 for a
      destructor, nothing otherwise. */
  function CellWeight(b: Board, c: Cell): (w: nat)
    ensures w == 0 || w == 1 || w == 3
    ensures w == 1 <==> Holds(b, Filter)(c)
    ensures w == 3 <==> Holds(b, Destructor)(c)
  {
    match b.stationaryAt(c)
    case Some(u) => if u.kind == Filter then 1 else if u.kind == Destructor then 3 else 0
    case None => 0
  }

  function WeightSum(b: Board, cells: seq<Cell>): nat {
    if |cells| == 0 then 0 else CellWeight(b, cells[0]) + WeightSum(b, cells[1..])
  }

  /** A side value is the sum of its cells' weights. */
  lemma {:induction false} SideValueIsWeightSum(b: Board, cells: seq<Cell>)
    ensures SideValue(b, cells) == WeightSum(b, cells)
  {
    if |cells| > 0 {
      SideValueIsWeightSum(b, cells[1..]);
    }
  }

  /** `left_value`. */
  function LeftValue(b: Board): nat {
    SideValue(b, LeftSide())
  }

  /** `right_value`. */
  function RightValue(b: Board): nat {
    SideValue(b, RightSide())
  }

  lemma {:induction false} WeightSumOfEmptyCells(b: Board, cells: seq<Cell>)
    requires forall c :: c in cells ==> b.stationaryAt(c).None?
    ensures WeightSum(b, cells) == 0
  {
    if |cells| > 0 {
      assert forall c :: c in cells[1..] ==> c in cells;
      WeightSumOfEmptyCells(b, cells[1..]);
    }
  }

  // ---------------------------------------------------------------------
  // Decision

  /** `choose_attack`: 0 and 1 are conventional attacks, 2 and 3 corner
      exploits. The result is 0 unless the (shared) corner score reaches 15;
      then it is 2 when the left half is no stronger than the right, else 3.
      It is never 1. */
  function ChooseAttack(b: Board): (choice: int)
    ensures choice == 0 || choice == 2 || choice == 3
    ensures choice == 0 <==> CornerScore(b) < 15
    ensures choice == 2 <==> CornerScore(b) >= 15 && LeftValue(b) <= RightValue(b)
    ensures choice == 3 <==> CornerScore(b) >= 15 && LeftValue(b) > RightValue(b)
  {
    CornerScoresAgree(b);
    var left := LeftCornerScore(b);
    var right := RightCornerScore(b);
    if left >= 15 && right >= 15 then
      if LeftValue(b) <= RightValue(b) then 2 else 3
    else if left <= right then 0
    else 1
  }

  /** A side whose cells all lie beyond row 27 is worth nothing on a board
      that reports no stationary unit there. */
  lemma OffBoardSideValue(b: Board, cells: seq<Cell>)
    requires forall c: Cell :: c.y >= 28 ==> b.stationaryAt(c).None?
    requires forall c :: c in cells ==> c.y >= 28
    ensures SideValue(b, cells) == 0
  {
    WeightSumOfEmptyCells(b, cells);
    SideValueIsWeightSum(b, cells);
  }

  lemma OffBoardLeftValue(b: Board)
    requires forall c: Cell :: c.y >= 28 ==> b.stationaryAt(c).None?
    ensures LeftValue(b) == 0
  {
    LeftSideCells();
    OffBoardSideValue(b, LeftSide());
  }

  lemma OffBoardRightValue(b: Board)
    requires forall c: Cell :: c.y >= 28 ==> b.stationaryAt(c).None?
    ensures RightValue(b) == 0
  {
    RightSideCells();
    OffBoardSideValue(b, RightSide());
  }

  /** Every cell of both side lists lies in rows 28 to 41, so on a board
      that reports no stationary unit beyond row 27 both side values are 0. */
  lemma OffBoardSides(b: Board)
    requires forall c: Cell :: c.y >= 28 ==> b.stationaryAt(c).None?
    ensures LeftValue(b) == 0 && RightValue(b) == 0
  {
    OffBoardLeftValue(b);
    OffBoardRightValue(b);
  }

  /** Once the corner score reaches 15 the side comparison alone decides. */
  lemma ChooseAttackExploit(b: Board)
    requires CornerScore(b) >= 15
    ensures ChooseAttack(b) == (if LeftValue(b) <= RightValue(b) then 2 else 3)
  {
    var choice := ChooseAttack(b);
    if LeftValue(b) <= RightValue(b) {
      assert choice == 2;
    } else {
      assert choice == 3;
    }
  }

  /** On a board that reports no stationary unit beyond row 27, a corner
      score of 15 or more always gives code 2. */
  lemma OffBoardChoice(b: Board)
    requires forall c: Cell :: c.y >= 28 ==> b.stationaryAt(c).None?
    ensures ChooseAttack(b) == (if CornerScore(b) >= 15 then 2 else 0)
  {
    if CornerScore(b) >= 15 {
      OffBoardSides(b);
      ChooseAttackExploit(b);
    } else {
      assert ChooseAttack(b) == 0;
    }
  }
}

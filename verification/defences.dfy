/** The fixed request tables of the strategy: the basic defence layout
    (`build_defences`), the corner feint (`choose_corner`), the reactive
    destructors placed behind breaches (`build_reactive_defense`) and the
    EMP line (`emp_line_strategy`). */
module Defences {
  import opened Game
  import opened Seqs

  // ---------------------------------------------------------------------
  // build_defences

  /** `destructor_locations`. */
  const DestructorCells: seq<Cell> :=
    [Cell(5, 10), Cell(22, 10)]

  /** `upgraded_filter_locations`. */
  const UpgradedFilterCells: seq<Cell> :=
    [Cell(0, 13), Cell(1, 13), Cell(26, 13), Cell(27, 13), Cell(1, 12), Cell(26, 12), Cell(2, 11),
     Cell(5, 11), Cell(6, 11), Cell(21, 11), Cell(22, 11), Cell(25, 11), Cell(3, 10), Cell(24, 10)]

  /** `non_upgraded_filter_locations`. */
  const PlainFilterCells: seq<Cell> :=
    [Cell(6, 9), Cell(21, 9), Cell(7, 8), Cell(20, 8), Cell(8, 7), Cell(19, 7), Cell(9, 6), Cell(18, 6),
     Cell(10, 5), Cell(12, 5), Cell(13, 5), Cell(14, 5), Cell(15, 5), Cell(17, 5), Cell(11, 4), Cell(16, 4)]

  /** Every cell's reflection is in the same list. */
  predicate MirrorClosed(cells: seq<Cell>) {
    forall c :: c in cells ==> Mirror(c) in cells
  }

  /** All cells lie in our half of the board: rows 0 to 13, columns 0 to 27. */
  predicate InOwnHalf(cells: seq<Cell>) {
    forall c :: c in cells ==> 0 <= c.x < ArenaSize && 0 <= c.y < HalfArena
  }

  lemma UpgradedFilterCellsDistinct()
    ensures Distinct(UpgradedFilterCells)
  {
  }

  lemma PlainFilterCellsDistinct()
    ensures Distinct(PlainFilterCells)
  {
  }

  /** The upgraded filters lie in rows 10 to 13, the plain ones in rows 4 to 9. */
  lemma UpgradedFilterRows()
    ensures forall c :: c in UpgradedFilterCells ==> 10 <= c.y < HalfArena && 0 <= c.x < ArenaSize
  {
  }

  lemma PlainFilterRows()
    ensures forall c :: c in PlainFilterCells ==> 4 <= c.y <= 9 && 0 <= c.x < ArenaSize
  {
  }

  /** The destructors lie on row 10. */
  lemma DestructorRow()
    ensures forall c :: c in DestructorCells ==> c.y == 10 && 0 <= c.x < ArenaSize
  {
  }

  lemma DefenceCellsDistinct()
    ensures Distinct(DestructorCells + UpgradedFilterCells + PlainFilterCells)
  {
    UpgradedFilterCellsDistinct();
    PlainFilterCellsDistinct();
    DestructorRow();
    UpgradedFilterRows();
    PlainFilterRows();
    DistinctAppend(DestructorCells, UpgradedFilterCells);
    DistinctAppend(DestructorCells + UpgradedFilterCells, PlainFilterCells);
  }

  lemma DefenceCellsInOwnHalf()
    ensures InOwnHalf(DestructorCells + UpgradedFilterCells + PlainFilterCells)
  {
    DestructorRow();
    UpgradedFilterRows();
    PlainFilterRows();
  }

  lemma DefenceCellsSymmetric()
    ensures MirrorClosed(DestructorCells)
    ensures MirrorClosed(UpgradedFilterCells)
    ensures MirrorClosed(PlainFilterCells)
  {
  }

  /** `build_defences`: spawn two destructors, then thirty filters with the
      upgraded ones first, then upgrade exactly those first fourteen. */
  function BuildDefences(): (plan: seq<Request>)
    ensures |plan| == 3
    ensures plan[0].Spawn? && plan[0].kind == Destructor && plan[0].num == 1 && |plan[0].cells| == 2
    ensures plan[1].Spawn? && plan[1].kind == Filter && plan[1].num == 1 && |plan[1].cells| == 30
    ensures plan[2].Upgrade? && plan[2].cells == plan[1].cells[..14]
  {
    var upgraded := UpgradedFilterCells;
    var filters := upgraded + PlainFilterCells;
    assert filters[..14] == upgraded;
    [Spawn(Destructor, DestructorCells, 1), Spawn(Filter, filters, 1), Upgrade(upgraded)]
  }

  lemma BuildDefencesRemovesNothing()
    ensures forall r :: r in BuildDefences() ==> !r.Remove?
  {
    var plan := BuildDefences();
    forall r | r in plan
      ensures !r.Remove?
    {
      var i :| 0 <= i < |plan| && plan[i] == r;
    }
  }

  /** The 32 cells `build_defences` builds on are distinct and lie in our
      half, every upgraded cell is a spawned filter, and the destructors, the
      upgraded filters and the plain filters are each symmetric about the
      mid-line. */
  lemma BuildDefencesLayout()
    ensures Distinct(BuildDefences()[0].cells + BuildDefences()[1].cells)
    ensures InOwnHalf(BuildDefences()[0].cells + BuildDefences()[1].cells)
    ensures forall c :: c in BuildDefences()[2].cells ==> c in BuildDefences()[1].cells
    ensures MirrorClosed(BuildDefences()[0].cells)
    ensures MirrorClosed(BuildDefences()[1].cells[..14])
    ensures MirrorClosed(BuildDefences()[1].cells[14..])
  {
    var plan := BuildDefences();
    assert plan[0].cells == DestructorCells;
    assert plan[1].cells == UpgradedFilterCells + PlainFilterCells;
    assert plan[1].cells[..14] == UpgradedFilterCells;
    assert plan[1].cells[14..] == PlainFilterCells;
    assert plan[0].cells + plan[1].cells == DestructorCells + UpgradedFilterCells + PlainFilterCells;
    DefenceCellsDistinct();
    DefenceCellsInOwnHalf();
    DefenceCellsSymmetric();
  }

  // ---------------------------------------------------------------------
  // choose_corner

  /** The `filter_locations` of `choose_corner`. */
  function CornerCells(left: bool): seq<Cell> {
    if left then [Cell(4, 12), Cell(3, 13), Cell(23, 11), Cell(24, 11)]
    else [Cell(23, 12), Cell(24, 13), Cell(3, 11), Cell(4, 11)]
  }

  /** The right-hand layout is the left-hand one reflected through the mid-line. */
  lemma CornerLayoutsMirrored()
    ensures forall c :: c in CornerCells(false) <==> Mirror(c) in CornerCells(true)
  {
  }

  /** `choose_corner`: spawn filters on four distinct cells, then ask for the
      same four cells to be removed. */
  function ChooseCorner(left: bool): (plan: seq<Request>)
    ensures |plan| == 2
    ensures plan[0].Spawn? && plan[0].kind == Filter && plan[0].num == 1
    ensures plan[1].Remove? && plan[1].cells == plan[0].cells
    ensures |plan[0].cells| == 4 && Distinct(plan[0].cells) && InOwnHalf(plan[0].cells)
  {
    [Spawn(Filter, CornerCells(left), 1), Remove(CornerCells(left))]
  }

  // ---------------------------------------------------------------------
  // build_reactive_defense

  /** `build_reactive_defense`: one destructor request one row above each
      recorded breach location, in the order of the log. */
  function ReactiveDefence(log: seq<Cell>): (plan: seq<Request>)
    ensures |plan| == |log|
    ensures forall i :: 0 <= i < |log| ==>
      plan[i] == Spawn(Destructor, [Cell(log[i].x, log[i].y + 1)], 1)
  {
    if |log| == 0 then []
    else [Spawn(Destructor, [Cell(log[0].x, log[0].y + 1)], 1)] + ReactiveDefence(log[1..])
  }

  /** Reactive requests for a longer log extend those for its prefix. */
  lemma {:induction false} ReactiveDefenceAppend(a: seq<Cell>, b: seq<Cell>)
    ensures ReactiveDefence(a + b) == ReactiveDefence(a) + ReactiveDefence(b)
  {
    if |a| == 0 {
      assert a + b == b;
    } else {
      assert (a + b)[1..] == a[1..] + b;
      ReactiveDefenceAppend(a[1..], b);
    }
  }

  // ---------------------------------------------------------------------
  // emp_line_strategy

  /** `stationary_units`, in the order the cheapest-unit loop visits them. */
  const StationaryOrder: seq<UnitKind> :=
    [Filter, Destructor, Encryptor]

  function KindCosts(cost: UnitKind -> int, kinds: seq<UnitKind>): (costs: seq<int>)
    ensures |costs| == |kinds|
    ensures forall i :: 0 <= i < |kinds| ==> costs[i] == cost(kinds[i])
  {
    seq(|kinds|, i requires 0 <= i < |kinds| => cost(kinds[i]))
  }

  /** The cheapest-unit loop: starting from the filter, a kind replaces the
      current choice only when it is strictly cheaper, so the first of the
      cheapest kinds wins. */
  method CheapestStationary(cost: UnitKind -> int) returns (cheapest: UnitKind)
    ensures exists i :: IsFirstMin(KindCosts(cost, StationaryOrder), i) && StationaryOrder[i] == cheapest
  {
    var order := StationaryOrder;
    var costs := KindCosts(cost, order);
    var best := 0;
    var i := 0;
    while i < |order|
      invariant 0 <= best <= i <= |order| && best < |order|
      invariant forall j :: 0 <= j < i ==> costs[best] <= costs[j]
      invariant forall j :: 0 <= j < best ==> costs[best] < costs[j]
    {
      if cost(order[i]) < cost(order[best]) {
        best := i;
      }
      i := i + 1;
    }
    cheapest := order[best];
    assert IsFirstMin(costs, best);
  }

  /** The x-coordinates `range(27, 5, -1)` of the EMP line, as requests. */
  method LineRequests(kind: UnitKind) returns (plan: seq<Request>)
    ensures |plan| == 22
    ensures forall i :: 0 <= i < 22 ==> plan[i] == Spawn(kind, [Cell(27 - i, 11)], 1)
  {
    plan := [];
    var x := 27;
    while x > 5
      invariant 5 <= x <= 27
      invariant |plan| == 27 - x
      invariant forall i :: 0 <= i < |plan| ==> plan[i] == Spawn(kind, [Cell(27 - i, 11)], 1)
    {
      plan := plan + [Spawn(kind, [Cell(x, 11)], 1)];
      x := x - 1;
    }
  }

  /** `emp_line_strategy`: a line of the cheapest stationary kind on row 11
      from x = 27 down to x = 6, then up to 1000 EMPs at [24, 10]. */
  method EmpLineStrategy(b: Board) returns (plan: seq<Request>)
    ensures |plan| == 23
    ensures plan[22] == Spawn(Emp, [Cell(24, 10)], 1000)
    ensures forall i :: 0 <= i < 22 ==>
      plan[i].Spawn? && plan[0].Spawn? && plan[i].kind == plan[0].kind && plan[i].num == 1 && plan[i].cells == [Cell(27 - i, 11)]
    ensures plan[0].Spawn? && exists k :: IsFirstMin(KindCosts(b.bitsCost, StationaryOrder), k) && StationaryOrder[k] == plan[0].kind
  {
    var cheapest := CheapestStationary(b.bitsCost);
    var line := LineRequests(cheapest);
    plan := line + [Spawn(Emp, [Cell(24, 10)], 1000)];
  }
}

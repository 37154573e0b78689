/** `starter_strategy`: the requests of one turn. With at least 16 pings
    affordable it attacks from the side `choose_attack` picks (feinting with
    `choose_corner` first for the conventional codes), and it always ends
    with the basic defences. */
module Strategy {
  import opened Game
  import Attack
  import Defences

  /** Pings affordable before any attack is launched. */
  const AttackThreshold: int := 16

  /** `(ping_location, emp_location)` for an attack code. */
  function LaunchCells(choice: int): (Cell, Cell) {
    if choice == 0 then (Cell(20, 6), Cell(21, 7))
    else if choice == 1 then (Cell(7, 6), Cell(6, 7))
    else if choice == 2 then (Cell(7, 6), Cell(6, 7))
    else (Cell(20, 6), Cell(21, 7))
  }

  /** The attack branch for a code: the corner feint for codes 0 and 1 (on
      the left layout exactly when the code is 0), then 7 pings and 3 EMPs. */
  function AttackRequests(choice: int): seq<Request> {
    var (ping, emp) := LaunchCells(choice);
    (if choice == 0 || choice == 1 then Defences.ChooseCorner(choice == 0) else [])
      + [Spawn(Ping, [ping], 7), Spawn(Emp, [emp], 3)]
  }

  /** Without code 1, the only removal the attack branch asks for is the
      left-hand corner feint. */
  lemma AttackRemovesLeftCornerOnly(choice: int)
    ensures choice != 1 ==>
      forall r :: r in AttackRequests(choice) && r.Remove? ==> r.cells == Defences.CornerCells(true)
  {
    var (ping, emp) := LaunchCells(choice);
    if choice == 1 {
    } else if choice == 0 {
      assert AttackRequests(choice) == Defences.ChooseCorner(true) + [Spawn(Ping, [ping], 7), Spawn(Emp, [emp], 3)];
    } else {
      assert AttackRequests(choice) == [Spawn(Ping, [ping], 7), Spawn(Emp, [emp], 3)];
    }
  }

  /** One turn of `starter_strategy` once the two board queries it depends
      on are answered: `pings` affordable and the attack code. The attack
      branch (only with at least 16 pings) precedes the basic defences, which
      always come last; without code 1 the only removal is the left feint. */
  function StarterPlan(pings: int, choice: int): (plan: seq<Request>)
    ensures |plan| >= 3 && plan[|plan| - 3..] == Defences.BuildDefences()
    ensures pings < AttackThreshold ==> plan == Defences.BuildDefences()
    ensures choice != 1 ==> forall r :: r in plan && r.Remove? ==> r.cells == Defences.CornerCells(true)
  {
    var defences := Defences.BuildDefences();
    if pings >= AttackThreshold then
      var attack := AttackRequests(choice);
      AttackRemovesLeftCornerOnly(choice);
      Defences.BuildDefencesRemovesNothing();
      assert (attack + defences)[|attack + defences| - 3..] == defences;
      attack + defences
    else
      defences
  }

  /** `starter_strategy` on a board. The basic defences always come last,
      they are all there is with fewer than 16 pings affordable, and since
      `choose_attack` never answers 1 the only removal ever requested is the
      left-hand corner feint. */
  function StarterStrategy(b: Board): (plan: seq<Request>)
    ensures |plan| >= 3 && plan[|plan| - 3..] == Defences.BuildDefences()
    ensures b.affordable(Ping) < AttackThreshold ==> plan == Defences.BuildDefences()
    ensures forall r :: r in plan && r.Remove? ==> r.cells == Defences.CornerCells(true)
  {
    var choice := Attack.ChooseAttack(b);
    assert choice != 1;
    StarterPlan(b.affordable(Ping), choice)
  }

  /** The plan for each code `choose_attack` can return, with at least 16
      pings affordable. */
  lemma StarterPlanByCode(pings: int)
    requires pings >= AttackThreshold
    ensures StarterPlan(pings, 0) == Defences.ChooseCorner(true)
      + [Spawn(Ping, [Cell(20, 6)], 7), Spawn(Emp, [Cell(21, 7)], 3)] + Defences.BuildDefences()
    ensures StarterPlan(pings, 2)
      == [Spawn(Ping, [Cell(7, 6)], 7), Spawn(Emp, [Cell(6, 7)], 3)] + Defences.BuildDefences()
    ensures StarterPlan(pings, 3)
      == [Spawn(Ping, [Cell(20, 6)], 7), Spawn(Emp, [Cell(21, 7)], 3)] + Defences.BuildDefences()
  {
  }

  /** Mobile units are requested exactly when at least 16 pings are
      affordable, and then 7 pings and 3 EMPs, pings first, just before the
      defences. */
  lemma StarterPlanMobiles(pings: int, choice: int)
    ensures (exists r :: r in StarterPlan(pings, choice) && r.Spawn? && r.kind.IsMobile())
      <==> pings >= AttackThreshold
    ensures pings >= AttackThreshold ==>
      var plan := StarterPlan(pings, choice);
      |plan| >= 5 && plan[|plan| - 5] == Spawn(Ping, [LaunchCells(choice).0], 7)
      && plan[|plan| - 4] == Spawn(Emp, [LaunchCells(choice).1], 3)
  {
    var plan := StarterPlan(pings, choice);
    var defences := Defences.BuildDefences();
    if pings >= AttackThreshold {
      var attack := AttackRequests(choice);
      assert plan == attack + defences;
      assert plan[|plan| - 5] == attack[|attack| - 2];
      assert plan[|plan| - 4] == attack[|attack| - 1];
      assert plan[|plan| - 5] in plan;
    } else {
      assert plan == defences;
      forall r | r in plan
        ensures !(r.Spawn? && r.kind.IsMobile())
      {
        var i :| 0 <= i < |plan| && plan[i] == r;
      }
    }
  }

  /** With the corner score below 15: the left feint, then the attack from
      [20, 6]/[21, 7]. */
  lemma StarterStrategyLowCorner(b: Board)
    requires b.affordable(Ping) >= AttackThreshold && Attack.CornerScore(b) < 15
    ensures StarterStrategy(b) == Defences.ChooseCorner(true)
      + [Spawn(Ping, [Cell(20, 6)], 7), Spawn(Emp, [Cell(21, 7)], 3)] + Defences.BuildDefences()
  {
    assert Attack.ChooseAttack(b) == 0;
    StarterPlanByCode(b.affordable(Ping));
  }

  /** With the corner score at 15 or more there is no feint: the attack
      comes from [7, 6]/[6, 7] when the left half is no stronger than the
      right, and from [20, 6]/[21, 7] otherwise. */
  lemma StarterStrategyExploit(b: Board)
    requires b.affordable(Ping) >= AttackThreshold && Attack.CornerScore(b) >= 15
    ensures StarterStrategy(b) == (if Attack.LeftValue(b) <= Attack.RightValue(b)
      then [Spawn(Ping, [Cell(7, 6)], 7), Spawn(Emp, [Cell(6, 7)], 3)]
      else [Spawn(Ping, [Cell(20, 6)], 7), Spawn(Emp, [Cell(21, 7)], 3)]) + Defences.BuildDefences()
  {
    Attack.ChooseAttackExploit(b);
    StarterPlanByCode(b.affordable(Ping));
  }
}

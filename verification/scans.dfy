/** The list scans of the strategy: `filter_blocked_locations`,
    `least_damage_spawn_location` and `detect_enemy_unit`. */
module Scans {
  import opened Game
  import opened Seqs

  // ---------------------------------------------------------------------
  // filter_blocked_locations

  /** The locations holding no stationary unit, in input order. */
  function FilterBlocked(b: Board, locations: seq<Cell>): (kept: seq<Cell>)
    ensures |kept| <= |locations|
    ensures forall c :: c in kept <==> c in locations && b.stationaryAt(c).None?
    ensures IsSubsequence(kept, locations)
  {
    FilterIsSubsequence(locations, IsFree(b));
    FilterMembers(locations, IsFree(b));
    Seqs.Filter(locations, IsFree(b))
  }

  /** The loop of `filter_blocked_locations`, appending each free location. */
  method FilterBlockedLocations(b: Board, locations: seq<Cell>) returns (filtered: seq<Cell>)
    ensures filtered == FilterBlocked(b, locations)
  {
    filtered := [];
    var i := 0;
    while i < |locations|
      invariant 0 <= i <= |locations|
      invariant filtered == FilterBlocked(b, locations[..i])
    {
      assert locations[..i + 1] == locations[..i] + [locations[i]];
      FilterAppend(locations[..i], [locations[i]], IsFree(b));
      if b.stationaryAt(locations[i]).None? {
        filtered := filtered + [locations[i]];
      }
      i := i + 1;
    }
    assert locations[..i] == locations;
  }

  /** Filtering an already filtered list changes nothing. */
  lemma FilterBlockedIdempotent(b: Board, locations: seq<Cell>)
    ensures FilterBlocked(b, FilterBlocked(b, locations)) == FilterBlocked(b, locations)
  {
    FilterKeepsPassing(FilterBlocked(b, locations), IsFree(b));
  }

  /** Filtering a concatenation filters each part in turn. */
  lemma FilterBlockedAppend(b: Board, xs: seq<Cell>, ys: seq<Cell>)
    ensures FilterBlocked(b, xs + ys) == FilterBlocked(b, xs) + FilterBlocked(b, ys)
  {
    FilterAppend(xs, ys, IsFree(b));
  }

  // ---------------------------------------------------------------------
  // least_damage_spawn_location

  /** The damage estimate of a path: the destructor damage once for every
      attacker of every cell on it, summed from the first cell on. */
  function PathDamage(b: Board, path: seq<Cell>): int {
    if |path| == 0 then 0
    else PathDamage(b, path[..|path| - 1]) + |b.attackers(path[|path| - 1], 0)| * b.destructorDamage
  }

  /** The number of attackers over the cells of a path. */
  function AttackerCount(b: Board, path: seq<Cell>): nat {
    if |path| == 0 then 0 else |b.attackers(path[0], 0)| + AttackerCount(b, path[1..])
  }

  lemma {:induction false} AttackerCountAppend(b: Board, xs: seq<Cell>, ys: seq<Cell>)
    ensures AttackerCount(b, xs + ys) == AttackerCount(b, xs) + AttackerCount(b, ys)
  {
    if |xs| == 0 {
      assert xs + ys == ys;
    } else {
      assert (xs + ys)[1..] == xs[1..] + ys;
      AttackerCountAppend(b, xs[1..], ys);
    }
  }

  lemma Distribute(d: int, n: int, m: int)
    ensures d * (n + m) == d * n + m * d
  {
  }

  /** A path's damage is the destructor damage times its attacker count. */
  lemma {:induction false} PathDamageIsProduct(b: Board, path: seq<Cell>)
    ensures PathDamage(b, path) == b.destructorDamage * AttackerCount(b, path)
  {
    if |path| > 0 {
      var init := path[..|path| - 1];
      var last := path[|path| - 1];
      PathDamageIsProduct(b, init);
      assert path == init + [last];
      AttackerCountAppend(b, init, [last]);
      assert AttackerCount(b, [last]) == |b.attackers(last, 0)|;
      Distribute(b.destructorDamage, AttackerCount(b, init), |b.attackers(last, 0)|);
    }
  }

  /** No path's damage is negative while the destructor damage is not. */
  lemma {:induction false} PathDamageNonNegative(b: Board, path: seq<Cell>)
    ensures b.destructorDamage >= 0 ==> PathDamage(b, path) >= 0
  {
    if |path| > 0 {
      PathDamageNonNegative(b, path[..|path| - 1]);
    }
  }

  /** The list `damages`: one estimate per option, for the path from it to the edge. */
  function Damages(b: Board, options: seq<Cell>): (damages: seq<int>)
    ensures |damages| == |options|
    ensures forall i :: 0 <= i < |options| ==> damages[i] == PathDamage(b, b.pathToEdge(options[i]))
  {
    seq(|options|, i requires 0 <= i < |options| => PathDamage(b, b.pathToEdge(options[i])))
  }

  /** The inner loop: the damage accumulated along one path. */
  method EstimateDamage(b: Board, path: seq<Cell>) returns (damage: int)
    ensures damage == PathDamage(b, path)
  {
    damage := 0;
    var i := 0;
    while i < |path|
      invariant 0 <= i <= |path|
      invariant damage == PathDamage(b, path[..i])
    {
      assert path[..i + 1][..i] == path[..i];
      damage := damage + |b.attackers(path[i], 0)| * b.destructorDamage;
      i := i + 1;
    }
    assert path[..i] == path;
  }

  /** `least_damage_spawn_location`: the option at `damages.index(min(damages))`.
      Python's `min` raises on an empty list, so at least one option is needed.
      The result is the first option whose estimate is the least. */
  method LeastDamageSpawnLocation(b: Board, options: seq<Cell>) returns (best: Cell)
    requires |options| > 0
    ensures exists i :: IsFirstMin(Damages(b, options), i) && options[i] == best
    ensures forall j :: 0 <= j < |options| ==> PathDamage(b, b.pathToEdge(best)) <= Damages(b, options)[j]
    ensures |options| == 1 ==> best == options[0]
  {
    var damages := [];
    var i := 0;
    while i < |options|
      invariant 0 <= i <= |options|
      invariant damages == Damages(b, options[..i])
    {
      var damage := EstimateDamage(b, b.pathToEdge(options[i]));
      damages := damages + [damage];
      i := i + 1;
    }
    assert options[..i] == options;
    var k := IndexOf(damages, MinOf(damages));
    IndexOfMinIsFirstMin(damages);
    best := options[k];
  }

  // ---------------------------------------------------------------------
  // detect_enemy_unit

  /** The optional filters of `detect_enemy_unit`; `None` stands for the
      default `None` argument, which lets everything through. */
  datatype EnemyQuery = EnemyQuery(
    unitType: Option<UnitKind>,
    validX: Option<seq<int>>,
    validY: Option<seq<int>>)

  /** An opponent unit on `c` that passes every filter given. */
  predicate Matches(q: EnemyQuery, c: Cell, u: Unit) {
    && u.playerIndex == 1
    && (q.unitType.None? || u.kind == q.unitType.value)
    && (q.validX.None? || c.x in q.validX.value)
    && (q.validY.None? || c.y in q.validY.value)
  }

  function MatchesAt(q: EnemyQuery, c: Cell): Unit -> bool {
    u => Matches(q, c, u)
  }

  /** Matching units summed over the locations that hold a stationary unit. */
  function EnemyTotal(b: Board, q: EnemyQuery, locations: seq<Cell>): nat {
    if |locations| == 0 then 0
    else
      var c := locations[0];
      (if b.stationaryAt(c).Some? then Count(b.unitsAt(c), MatchesAt(q, c)) else 0)
        + EnemyTotal(b, q, locations[1..])
  }

  lemma {:induction false} EnemyTotalAppend(b: Board, q: EnemyQuery, xs: seq<Cell>, ys: seq<Cell>)
    ensures EnemyTotal(b, q, xs + ys) == EnemyTotal(b, q, xs) + EnemyTotal(b, q, ys)
  {
    if |xs| == 0 {
      assert xs + ys == ys;
    } else {
      assert (xs + ys)[1..] == xs[1..] + ys;
      EnemyTotalAppend(b, q, xs[1..], ys);
    }
  }

  /** `detect_enemy_unit`: the nested loops over `game_map` and the units on
      each occupied location. */
  method DetectEnemyUnit(b: Board, q: EnemyQuery) returns (total: int)
    ensures total == EnemyTotal(b, q, b.locations)
  {
    total := 0;
    var i := 0;
    while i < |b.locations|
      invariant 0 <= i <= |b.locations|
      invariant total == EnemyTotal(b, q, b.locations[..i])
    {
      var c := b.locations[i];
      assert b.locations[..i + 1] == b.locations[..i] + [c];
      EnemyTotalAppend(b, q, b.locations[..i], [c]);
      if b.stationaryAt(c).Some? {
        var units := b.unitsAt(c);
        var j := 0;
        var here := 0;
        while j < |units|
          invariant 0 <= j <= |units|
          invariant here == Count(units[..j], MatchesAt(q, c))
        {
          assert units[..j + 1] == units[..j] + [units[j]];
          CountAppend(units[..j], [units[j]], MatchesAt(q, c));
          if Matches(q, c, units[j]) {
            here := here + 1;
          }
          j := j + 1;
        }
        assert units[..j] == units;
        total := total + here;
      }
      i := i + 1;
    }
    assert b.locations[..i] == b.locations;
  }

  /** `narrow` asks at least as much as `wide`: the same unit type when
      `wide` names one, and admissible coordinates among `wide`'s. */
  predicate Narrows(narrow: EnemyQuery, wide: EnemyQuery) {
    && (wide.unitType.Some? ==> narrow.unitType == wide.unitType)
    && (wide.validX.Some? ==> narrow.validX.Some? && forall x :: x in narrow.validX.value ==> x in wide.validX.value)
    && (wide.validY.Some? ==> narrow.validY.Some? && forall y :: y in narrow.validY.value ==> y in wide.validY.value)
  }

  /** Supplying an extra filter never increases the count. */
  lemma {:induction false} NarrowerCountsFewer(b: Board, narrow: EnemyQuery, wide: EnemyQuery, locations: seq<Cell>)
    requires Narrows(narrow, wide)
    ensures EnemyTotal(b, narrow, locations) <= EnemyTotal(b, wide, locations)
  {
    if |locations| > 0 {
      var c := locations[0];
      CountMonotone(b.unitsAt(c), MatchesAt(narrow, c), MatchesAt(wide, c));
      NarrowerCountsFewer(b, narrow, wide, locations[1..]);
    }
  }
}

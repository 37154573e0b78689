# AlgoStrategy, modelled in Dafny

This project models the strategy layer of the starter algo for the
Terminal game (`AlgoStrategy` in `python-algo/algo_strategy.py`). Each turn
the algo reads the board and then writes spawn, upgrade and remove requests.
The model covers:

- the attack-side choice (`choose_attack`) and the corner feint (`choose_corner`);
- the per-turn request sequence (`starter_strategy` and the
  `build_defences` it ends with);
- the reactive destructors of `build_reactive_defense`, modelled on their
  own: its only call in `starter_strategy` is commented out, so the turn
  plan never contains them;
- the EMP line (`emp_line_strategy`);
- the list scans: `filter_blocked_locations`, `least_damage_spawn_location`
  and `detect_enemy_unit`;
- the breach log that `on_action_frame` keeps in `scored_on_locations`.

The board is abstract. A `Board` value holds the game library's queries as
uninterpreted functions: `contains_stationary_unit`, `game_map[...]`, the
iteration over `game_map`, `get_attackers`, `find_path_to_edge`,
`number_affordable`, the bit cost of a unit kind, and the destructor's
`damage_i`. A request is one entry of a turn plan (`seq<Request>`), and
nothing is assumed about whether the game carries it out.

Files:

- `game.dfy`: cells, unit kinds, units, the board, requests and the arena constants.
- `seqs.dfy`: counting, order-preserving filtering, subsequences,
  distinctness, `min` and `list.index`.
- `attack.dfy`: `choose_attack`, covering the corner scores, the side cell
  lists, the side values and the decision.
- `defences.dfy`: the fixed layouts of `build_defences` and
  `choose_corner`, the reactive destructors, and `emp_line_strategy`.
- `strategy.dfy`: `starter_strategy`.
- `scans.dfy`: `filter_blocked_locations`, `least_damage_spawn_location`
  and `detect_enemy_unit`.
- `breaches.dfy`: the breach loop of `on_action_frame`.

What the proofs establish about the source:

- **`choose_attack` never returns 1.** The left and right corner scores are
  built from identical cell literals and the same attacker query, so they
  are always equal. The left secondary loop appends the occupant of the
  stale loop variable `x` (the last primary cell, [3, 14]) rather than the
  cell it examined. Only the length of that list is used, so this does not
  change the score. The result is therefore 0 when the shared score is
  below 15, and otherwise 2 or 3 by the side comparison.
- **The side cells lie beyond row 27.** Every cell `[x, y + 14]` the side
  loops generate has `y + 14` between 28 and 41. `left_side` has 105
  distinct cells and `right_side` has 196. If the board reports no
  stationary unit beyond row 27, both side values are 0, so a corner score
  of 15 or more always gives code 2.
- **The right-hand corner feint is never requested.** `starter_strategy`
  therefore only ever asks to remove the left-hand corner cells.

## Model

| member | source | states |
|---|---|---|
| Attack.FiltersIn | python-algo/algo_strategy.py:69-72 | the primary list holds one filter for each primary cell that holds a filter, so its length is that count |
| Attack.SecondaryTally | python-algo/algo_strategy.py:73-75 | the secondary list has one entry per occupied secondary cell, whatever cell each entry is read from, so the stale `x` does not change its length |
| Attack.CornerScoresAgree | python-algo/algo_strategy.py:63-89 | `left` and `right` both equal the filters on the primary cells, plus the occupied secondary cells, plus 3 per attacker of [2, 13] |
| Attack.BuildSide | python-algo/algo_strategy.py:91-100 | the nested side loops build exactly the loop-order block of cells `[x, y + 14]`, filtered by the loop test |
| Attack.SideBlockCells | python-algo/algo_strategy.py:92-93 | the cells the side loops visit are exactly the cells of their 14 columns in rows 28 to 41 |
| Attack.SideBlockDistinct | python-algo/algo_strategy.py:92-93 | the side loops never visit a cell twice |
| Attack.SideCells | python-algo/algo_strategy.py:91-100 | a side list built from columns x0 to x0 + 13 has no repeated cell and holds exactly the cells of those columns in rows 28 to 41 that pass its loop test |
| Attack.LeftSideCells | python-algo/algo_strategy.py:91-95 | `left_side` has no repeated cell and holds exactly the cells with 0 <= x <= 13, 28 <= y <= 41 and y - 28 <= x |
| Attack.LeftSideSize | python-algo/algo_strategy.py:91-95 | `left_side` has 105 cells, x + 1 from each column x |
| Attack.RightSideCells | python-algo/algo_strategy.py:96-100 | the test of `right_side` keeps every cell, so the list has 196 distinct cells: all cells with 14 <= x <= 27 and 28 <= y <= 41 |
| Attack.Classify | python-algo/algo_strategy.py:106-121 | the if/elif pass appends the unit of every filter cell to the first list and of every destructor cell to the second, so their lengths are the numbers of filter and destructor cells, and nothing else enters either list |
| Attack.CellWeight | python-algo/algo_strategy.py:106-124 | a cell adds 1 exactly when it holds a filter, 3 exactly when it holds a destructor, and nothing otherwise |
| Attack.SideValueIsWeightSum | python-algo/algo_strategy.py:102-124 | a side value `len(filters) + 3 * len(destructors)` equals the sum of its cells' weights |
| Attack.ChooseAttack | python-algo/algo_strategy.py:63-135 | the code is 0, 2 or 3 and never 1; it is 0 exactly when the corner score is below 15, 2 exactly when it is 15 or more and left_value <= right_value, and 3 otherwise |
| Attack.ChooseAttackExploit | python-algo/algo_strategy.py:127-131 | with a corner score of 15 or more, the side comparison alone decides between 2 and 3 |
| Attack.OffBoardSideValue | python-algo/algo_strategy.py:106-124 | a list of cells beyond row 27 is worth 0 on a board with no stationary unit there |
| Attack.OffBoardSides | python-algo/algo_strategy.py:91-124 | on such a board both left_value and right_value are 0 |
| Attack.OffBoardChoice | python-algo/algo_strategy.py:91-135 | on such a board the code is 2 when the corner score reaches 15 and 0 otherwise, so 3 is never returned |
| Defences.BuildDefences | python-algo/algo_strategy.py:188-209 | the plan has three requests: spawn 2 destructors, spawn 30 filters, then upgrade exactly the first 14 of those filters |
| Defences.BuildDefencesRemovesNothing | python-algo/algo_strategy.py:188-209 | `build_defences` asks for no removal |
| Defences.BuildDefencesLayout | python-algo/algo_strategy.py:197-209 | the 32 cells are pairwise distinct and lie in rows 0 to 13; every upgraded cell is a spawned filter; the destructors, the upgraded filters and the plain filters are each closed under x -> 27 - x |
| Defences.DefenceCellsDistinct | python-algo/algo_strategy.py:197-206 | the destructor and filter cell literals contain no repeated cell |
| Defences.CornerLayoutsMirrored | python-algo/algo_strategy.py:139-142 | the right-hand corner layout is the left-hand one reflected through x -> 27 - x |
| Defences.ChooseCorner | python-algo/algo_strategy.py:137-144 | a filter spawn on 4 distinct cells in our half, followed by a removal of the same 4 cells |
| Defences.ReactiveDefence | python-algo/algo_strategy.py:211-220 | one destructor request per logged location, at [x, y + 1], in log order |
| Defences.ReactiveDefenceAppend | python-algo/algo_strategy.py:217-220 | the requests for a longer log extend those for its prefix |
| Defences.CheapestStationary | python-algo/algo_strategy.py:252-258 | the chosen kind is the first of filter, destructor, encryptor whose bit cost is the least |
| Defences.LineRequests | python-algo/algo_strategy.py:262-263 | 22 single-unit spawns at x = 27 down to 6 on row 11, in that order |
| Defences.EmpLineStrategy | python-algo/algo_strategy.py:246-267 | the 22 line spawns, all of the first-cheapest stationary kind, then one spawn of 1000 EMPs at [24, 10] |
| Strategy.StarterPlan | python-algo/algo_strategy.py:151-184 | the basic defences always end the plan; with fewer than 16 pings they are the whole plan; unless the code is 1, the only removal is the left corner feint |
| Strategy.AttackRemovesLeftCornerOnly | python-algo/algo_strategy.py:157-173 | for every code except 1, the attack branch removes only the left corner cells |
| Strategy.StarterStrategy | python-algo/algo_strategy.py:151-184 | on every board the basic defences come last, they are the whole turn with fewer than 16 pings affordable, and the only removal a turn requests is the left corner feint |
| Strategy.StarterPlanMobiles | python-algo/algo_strategy.py:152-173 | mobile units are requested exactly when at least 16 pings are affordable, and then 7 pings at the code's ping cell followed by 3 EMPs at its EMP cell, just before the defences |
| Strategy.StarterStrategyLowCorner | python-algo/algo_strategy.py:153-173 | with 16 pings and a corner score below 15: the left feint, 7 pings at [20, 6], 3 EMPs at [21, 7], then the defences |
| Strategy.StarterStrategyExploit | python-algo/algo_strategy.py:153-173 | with 16 pings and a corner score of 15 or more there is no feint: 7 pings at [7, 6] and 3 EMPs at [6, 7] when left_value <= right_value, otherwise 7 pings at [20, 6] and 3 EMPs at [21, 7], then the defences |
| Scans.FilterBlocked | python-algo/algo_strategy.py:299-304 | the result is an order-preserving subsequence of the input, no longer than it, and holds exactly the input locations with no stationary unit |
| Scans.FilterBlockedLocations | python-algo/algo_strategy.py:299-304 | the append loop builds exactly that subsequence |
| Scans.FilterBlockedIdempotent | python-algo/algo_strategy.py:299-304 | filtering twice is filtering once |
| Scans.FilterBlockedAppend | python-algo/algo_strategy.py:299-304 | filtering a concatenation is the concatenation of the filtered parts |
| Scans.EstimateDamage | python-algo/algo_strategy.py:279-283 | the inner loop adds attackers times destructor damage for each path cell in turn |
| Scans.PathDamageIsProduct | python-algo/algo_strategy.py:279-283 | a path's damage is the destructor damage times the number of attackers along the path |
| Scans.PathDamageNonNegative | python-algo/algo_strategy.py:279-283 | a path's damage is never negative when the destructor damage is not |
| Scans.LeastDamageSpawnLocation | python-algo/algo_strategy.py:269-287 | for a non-empty option list, the result is the option at the first position of least damage; its damage is at most every option's; a single option is returned as-is |
| Seqs.IndexOfMinIsFirstMin | python-algo/algo_strategy.py:287 | `damages.index(min(damages))` is the first position holding the minimum, and no other position is |
| Scans.DetectEnemyUnit | python-algo/algo_strategy.py:289-297 | the nested loops count the opponent units, on locations holding a stationary unit, that pass the optional type, x and y filters |
| Scans.NarrowerCountsFewer | python-algo/algo_strategy.py:289-297 | supplying an extra filter, or narrowing one, never increases the count |
| Breaches.ScoredOn | python-algo/algo_strategy.py:317-324 | the appended locations are exactly those of breaches whose owner field is not 1, in event order |
| Breaches.OnActionFrame | python-algo/algo_strategy.py:317-324 | a frame leaves the earlier log unchanged and appends the opponent's breach locations in order |
| Breaches.OnActionFrameCompose | python-algo/algo_strategy.py:317-324 | processing two frames in turn is the same as processing their events together |
| Breaches.OwnBreachesIgnored | python-algo/algo_strategy.py:319-322 | breaches whose owner is 1 (this algo) leave the log unchanged |
| Breaches.ReactiveDefenceAfterFrame | python-algo/algo_strategy.py:211-220 | after a frame, the reactive destructors are the earlier ones followed by one above each new breach |

## Left out

- JSON decoding of the action frame, the game loop and turn submission
  (`on_turn`, `start`, `submit_turn`). These are transport and I/O. A breach
  batch is given directly as a sequence of (location, owner) pairs.
- `stall_with_scramblers` and the random seeding in `__init__`. They use
  ambient randomness, and the loop only ends because the game library
  deducts bits inside `attempt_spawn`, which is not part of this model.
- Reading unit shorthands from the config in `on_game_start`: unit kinds are
  a Dafny enumeration. The `BITS`/`CORES` constants appear only as the
  `bitsCost` query.
- `debug_write` logging.
- The game library: map bounds, pathfinding, attacker search, costs, and the
  validation and affordability checks of `attempt_spawn`,
  `attempt_upgrade` and `attempt_remove`. All of these are uninterpreted
  functions of the board. The two `get_attackers([2, 13], 0)` calls in
  `choose_attack` are modelled as one query. A request is recorded whether
  or not the game would accept it.
- `find_path_to_edge` can return `None` when no path exists. The board
  returns a sequence, so that case is not modelled.
- Scans.LeastDamageSpawnLocation: requires a non-empty option list, because
  Python's `min` raises on an empty one. The exception itself is not modelled.
- `Request.num` is an unbounded integer. The repeat counts in the code are
  1, 3, 7 and 1000, and no bound on the count is modelled.

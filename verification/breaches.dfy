/** The breach log kept by `on_action_frame` (`scored_on_locations`) and
    the reactive destructors `build_reactive_defense` derives from it. */
module Breaches {
  import opened Game
  import Defences

  /** One `breach` event of an action frame: its location (field 0) and its
      owner (field 4), where 1 is this algo and 2 the opponent. The other
      fields are not read. */
  datatype Breach = Breach(location: Cell, owner: int)

  /** The owner field names this algo's own unit. */
  predicate IsOwn(e: Breach) {
    e.owner == 1
  }

  /** The locations the opponent scored on, in event order. */
  function ScoredOn(events: seq<Breach>): (locations: seq<Cell>)
    ensures |locations| <= |events|
    ensures forall c :: c in locations <==> exists e :: e in events && !IsOwn(e) && e.location == c
  {
    if |events| == 0 then []
    else
      var rest := ScoredOn(events[1..]);
      assert forall e :: e in events <==> e == events[0] || e in events[1..];
      if IsOwn(events[0]) then rest else [events[0].location] + rest
  }

  /** The loop over one frame's breaches: each event whose owner is not 1
      appends its location to the log. The earlier entries stay as they
      were, and exactly the locations the opponent scored on follow, in
      event order. */
  function OnActionFrame(log: seq<Cell>, events: seq<Breach>): (updated: seq<Cell>)
    ensures updated == log + ScoredOn(events)
    decreases |events|
  {
    if |events| == 0 then log
    else
      var next := if IsOwn(events[0]) then log else log + [events[0].location];
      OnActionFrame(next, events[1..])
  }

  /** Processing two frames in turn is processing their events together. */
  lemma OnActionFrameCompose(log: seq<Cell>, first: seq<Breach>, second: seq<Breach>)
    ensures OnActionFrame(OnActionFrame(log, first), second) == OnActionFrame(log, first + second)
  {
    ScoredOnAppend(first, second);
  }

  lemma {:induction false} ScoredOnAppend(first: seq<Breach>, second: seq<Breach>)
    ensures ScoredOn(first + second) == ScoredOn(first) + ScoredOn(second)
  {
    if |first| == 0 {
      assert first + second == second;
    } else {
      assert (first + second)[1..] == first[1..] + second;
      ScoredOnAppend(first[1..], second);
    }
  }

  /** A frame whose every breach is this algo's own leaves the log as it was. */
  lemma {:induction false} OwnBreachesIgnored(log: seq<Cell>, events: seq<Breach>)
    requires forall e :: e in events ==> IsOwn(e)
    ensures OnActionFrame(log, events) == log
  {
    if |events| > 0 {
      assert events[0] in events;
      OwnBreachesIgnored(log, events[1..]);
    }
  }

  /** After a frame, the reactive destructors are the earlier ones followed
      by one for each new opponent breach, one row above it. */
  lemma ReactiveDefenceAfterFrame(log: seq<Cell>, events: seq<Breach>)
    ensures Defences.ReactiveDefence(OnActionFrame(log, events))
      == Defences.ReactiveDefence(log) + Defences.ReactiveDefence(ScoredOn(events))
  {
    Defences.ReactiveDefenceAppend(log, ScoredOn(events));
  }
}

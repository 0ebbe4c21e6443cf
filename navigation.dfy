/** Leaving a selection screen for the battle screen. */
module Navigation {
  import opened Wrappers
  import opened Fighters

  /** The battle route `battle/{fighter1Id}/{fighter2Id}`. */
  datatype BattleRoute = BattleRoute(fighter1Id: int, fighter2Id: int)

  /** The "Start Battle" button: enabled, and navigating, only when exactly
      two fighters are selected; fighter 1 is the first selected and
      fighter 2 the second. */
  function StartBattle(selection: seq<Fighter>): (route: Option<BattleRoute>)
    ensures route.Some? <==> |selection| == 2
    ensures route.Some? ==> route.value == BattleRoute(selection[0].id, selection[1].id)
  {
    if |selection| == 2 then Some(BattleRoute(selection[0].id, selection[1].id)) else None
  }
}

/** The fighter selection screen: picking two fighters for a battle,
    matched by structural equality of the whole record. */
module FighterSelection {
  import opened Fighters
  import opened Wrappers
  import opened Navigation
  import opened Lists

  /** `selection.filter { it != fighter }`. */
  function WithoutFighter(selection: seq<Fighter>, fighter: Fighter): (r: seq<Fighter>)
    ensures |r| <= |selection|
    ensures fighter !in r
    ensures forall f :: f in r <==> f in selection && f != fighter
    ensures SubsequenceOf(r, selection)
    ensures |r| == |selection| - multiset(selection)[fighter]
  {
    if selection == [] then []
    else
      assert selection == [selection[0]] + selection[1..];
      var rest := WithoutFighter(selection[1..], fighter);
      if selection[0] != fighter then
        assert forall i :: 1 <= i < |[selection[0]] + rest| ==> ([selection[0]] + rest)[i] == rest[i - 1];
        [selection[0]] + rest
      else rest
  }

  /** `selectFighter`: tapping a selected fighter removes every equal entry;
      tapping another one appends it while fewer than two are selected, and
      is ignored otherwise. */
  function SelectFighter(selection: seq<Fighter>, fighter: Fighter): (r: seq<Fighter>)
    ensures fighter in r <==> fighter !in selection && |selection| < 2
    ensures forall f :: f != fighter ==> (f in r <==> f in selection)
    ensures |r| <= |selection| + 1
  {
    if fighter in selection then WithoutFighter(selection, fighter)
    else if |selection| < 2 then selection + [fighter]
    else selection
  }

  /** No record is selected twice. */
  predicate NoRepeats(selection: seq<Fighter>)
  {
    forall i, j :: 0 <= i < j < |selection| ==> selection[i] != selection[j]
  }

  lemma {:induction false} WithoutFighterKeepsNoRepeats(selection: seq<Fighter>, fighter: Fighter)
    requires NoRepeats(selection)
    ensures NoRepeats(WithoutFighter(selection, fighter))
  {
    if selection != [] {
      WithoutFighterKeepsNoRepeats(selection[1..], fighter);
      assert selection[0] !in selection[1..];
    }
  }

  /** The selection never holds more than two fighters nor the same record
      twice; a tap on a selected fighter deselects it, a tap on an
      unselected one selects it exactly when there was room. */
  lemma SelectFighterSpec(selection: seq<Fighter>, fighter: Fighter)
    requires |selection| <= 2 && NoRepeats(selection)
    ensures var r := SelectFighter(selection, fighter);
      && |r| <= 2 && NoRepeats(r)
      && (fighter in selection ==> fighter !in r && forall f :: f in selection && f != fighter ==> f in r)
      && (fighter !in selection ==> (fighter in r <==> |selection| < 2))
      && (fighter !in selection && |selection| < 2 ==> r == selection + [fighter])
      && (fighter !in selection && |selection| >= 2 ==> r == selection)
  {
    if fighter in selection {
      WithoutFighterKeepsNoRepeats(selection, fighter);
    } else if |selection| < 2 {
      var r := selection + [fighter];
      assert r[|selection|] == fighter;
    }
  }

  /** Matching whole records rather than ids lets an updated copy of an
      already selected fighter (here, one with an extra win) be added beside
      the stale one: both entries then carry the same id. */
  lemma UpdatedCopySelectedTwice(f: Fighter)
    ensures var updated := f.(wins := f.wins + 1);
      var r := SelectFighter(SelectFighter([], f), updated);
      && |r| == 2 && r[0].id == r[1].id
      && StartBattle(r) == Some(BattleRoute(f.id, f.id))
  {
    var updated := f.(wins := f.wins + 1);
    assert updated != f;
    assert SelectFighter([], f) == [f];
  }

  /** The remembered selection of the selection screen. */
  class SelectionState {
    var selectedFighters: seq<Fighter>

    ghost predicate Valid()
      reads this
    {
      |selectedFighters| <= 2 && NoRepeats(selectedFighters)
    }

    constructor ()
      ensures Valid() && selectedFighters == []
    {
      selectedFighters := [];
    }

    /** A tap on a fighter row writes the new selection back. */
    method SelectFighterTap(fighter: Fighter)
      requires Valid()
      modifies this
      ensures Valid()
      ensures selectedFighters == SelectFighter(old(selectedFighters), fighter)
      ensures IsSelected(fighter) <==> !old(IsSelected(fighter)) && |old(selectedFighters)| < 2
      ensures forall g :: g != fighter ==> (IsSelected(g) <==> old(IsSelected(g)))
    {
      SelectFighterSpec(selectedFighters, fighter);
      selectedFighters := SelectFighter(selectedFighters, fighter);
    }

    /** A row is drawn as selected exactly when its record is in the
        selection. */
    function IsSelected(fighter: Fighter): (selected: bool)
      reads this
      ensures selected <==> exists i :: 0 <= i < |selectedFighters| && selectedFighters[i] == fighter
    {
      fighter in selectedFighters
    }
  }
}

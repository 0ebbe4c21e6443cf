/** The leaderboard screen's logic: picking two fighters for a battle
    (matched by id), medals for the top three, and renaming. */
module Leaderboard {
  import opened Wrappers
  import opened Fighters
  import opened Navigation
  import opened Lists

  // ---------------------------------------------------------------------
  // Selection by id

  /** `selection.any { it.id == id }`. */
  predicate HasId(selection: seq<Fighter>, id: int)
  {
    exists i :: 0 <= i < |selection| && selection[i].id == id
  }

  /** No two selected entries share an id. */
  predicate DistinctIds(selection: seq<Fighter>)
  {
    forall i, j :: 0 <= i < j < |selection| ==> selection[i].id != selection[j].id
  }

  /** `selection.filter { it.id != id }`. */
  function WithoutId(selection: seq<Fighter>, id: int): (r: seq<Fighter>)
    ensures |r| <= |selection|
    ensures !HasId(r, id)
    ensures forall f :: f in r <==> f in selection && f.id != id
    ensures SubsequenceOf(r, selection)
    ensures |r| == |selection| - CountId(selection, id)
  {
    if selection == [] then []
    else
      var rest := WithoutId(selection[1..], id);
      if selection[0].id != id then
        assert forall i :: 1 <= i < |[selection[0]] + rest| ==> ([selection[0]] + rest)[i] == rest[i - 1];
        [selection[0]] + rest
      else rest
  }

  /** Filtering keeps every entry with another id as many times as it
      occurs. */
  lemma {:induction false} WithoutIdKeepsCounts(selection: seq<Fighter>, id: int, f: Fighter)
    requires f.id != id
    ensures multiset(WithoutId(selection, id))[f] == multiset(selection)[f]
  {
    if selection != [] {
      var head, tail := selection[0], selection[1..];
      WithoutIdKeepsCounts(tail, id, f);
      assert selection == [head] + tail;
      assert multiset(selection) == multiset{head} + multiset(tail);
      var rest := WithoutId(tail, id);
      if head.id != id {
        assert WithoutId(selection, id) == [head] + rest;
        assert multiset([head] + rest) == multiset{head} + multiset(rest);
      } else {
        assert head != f;
      }
    }
  }

  /** The number of entries carrying `id`. */
  function CountId(selection: seq<Fighter>, id: int): (n: nat)
    ensures n <= |selection|
  {
    if selection == [] then 0
    else (if selection[0].id == id then 1 else 0) + CountId(selection[1..], id)
  }

  /** `selectFighterForBattle`: tapping a selected fighter (same id) removes
      it; tapping another one appends it while fewer than two are selected,
      and is ignored otherwise. */
  function SelectFighterForBattle(selection: seq<Fighter>, fighter: Fighter): (r: seq<Fighter>)
    ensures HasId(r, fighter.id) <==> !HasId(selection, fighter.id) && |selection| < 2
    ensures |r| <= |selection| + 1
  {
    if HasId(selection, fighter.id) then WithoutId(selection, fighter.id)
    else if |selection| < 2 then
      assert (selection + [fighter])[|selection|] == fighter;
      selection + [fighter]
    else selection
  }

  /** A tap leaves the highlight of every other id as it was. */
  lemma TapKeepsOtherHighlights(selection: seq<Fighter>, fighter: Fighter, id: int)
    requires id != fighter.id
    ensures HasId(SelectFighterForBattle(selection, fighter), id) <==> HasId(selection, id)
  {
    var r := SelectFighterForBattle(selection, fighter);
    if HasId(selection, id) {
      var i :| 0 <= i < |selection| && selection[i].id == id;
      assert selection[i] in r;
      var j :| 0 <= j < |r| && r[j] == selection[i];
    }
    if HasId(r, id) {
      var j :| 0 <= j < |r| && r[j].id == id;
      assert r[j] in selection;
      var i :| 0 <= i < |selection| && selection[i] == r[j];
    }
  }

  /** Removing entries keeps distinct ids distinct. */
  lemma {:induction false} WithoutIdKeepsDistinct(selection: seq<Fighter>, id: int)
    requires DistinctIds(selection)
    ensures DistinctIds(WithoutId(selection, id))
  {
    if selection != [] {
      WithoutIdKeepsDistinct(selection[1..], id);
      var rest := WithoutId(selection[1..], id);
      forall f | f in rest ensures f.id != selection[0].id {
        var k :| 1 <= k < |selection| && selection[k] == f;
      }
    }
  }

  /** The selection never holds more than two fighters nor two entries with
      the same id. */
  lemma SelectionStaysValid(selection: seq<Fighter>, fighter: Fighter)
    requires |selection| <= 2 && DistinctIds(selection)
    ensures |SelectFighterForBattle(selection, fighter)| <= 2
    ensures DistinctIds(SelectFighterForBattle(selection, fighter))
  {
    if HasId(selection, fighter.id) {
      WithoutIdKeepsDistinct(selection, fighter.id);
    }
  }

  /** Tapping a selected fighter removes every entry with its id and keeps
      the others in order; tapping an unselected one appends it at the end
      when fewer than two are selected, and otherwise changes nothing. */
  lemma SelectFighterForBattleCases(selection: seq<Fighter>, fighter: Fighter)
    ensures var r := SelectFighterForBattle(selection, fighter);
      && (HasId(selection, fighter.id) ==>
            && !HasId(r, fighter.id)
            && SubsequenceOf(r, selection)
            && forall f :: f in selection && f.id != fighter.id ==> f in r)
      && (!HasId(selection, fighter.id) && |selection| < 2 ==>
            r == selection + [fighter] && HasId(r, fighter.id))
      && (!HasId(selection, fighter.id) && |selection| >= 2 ==> r == selection)
  {
    if !HasId(selection, fighter.id) && |selection| < 2 {
      var r := selection + [fighter];
      assert r[|selection|].id == fighter.id;
    }
  }

  /** Removing an id that no entry has changes nothing. */
  lemma {:induction false} WithoutAbsentId(selection: seq<Fighter>, id: int)
    requires !HasId(selection, id)
    ensures WithoutId(selection, id) == selection
  {
    if selection != [] {
      assert selection[0].id != id;
      assert !HasId(selection[1..], id) by {
        forall i | 0 <= i < |selection[1..]| ensures selection[1..][i].id != id {
          assert selection[1..][i] == selection[i + 1];
        }
      }
      WithoutAbsentId(selection[1..], id);
      assert selection == [selection[0]] + selection[1..];
    }
  }

  /** Tapping the same fighter twice, with room to select it, restores the
      selection. */
  lemma SelectTwiceRestores(selection: seq<Fighter>, fighter: Fighter)
    requires !HasId(selection, fighter.id) && |selection| < 2
    ensures SelectFighterForBattle(SelectFighterForBattle(selection, fighter), fighter) == selection
  {
    var once := selection + [fighter];
    assert once[|selection|].id == fighter.id;
    WithoutAbsentId(selection, fighter.id);
    WithoutIdAppend(selection, fighter, fighter.id);
  }

  lemma {:induction false} WithoutIdAppend(selection: seq<Fighter>, fighter: Fighter, id: int)
    requires fighter.id == id
    ensures WithoutId(selection + [fighter], id) == WithoutId(selection, id)
  {
    if selection == [] {
      assert [] + [fighter] == [fighter];
    } else {
      assert (selection + [fighter])[1..] == selection[1..] + [fighter];
      WithoutIdAppend(selection[1..], fighter, id);
    }
  }

  /** A selection reached by tapping cards never starts a battle of a
      fighter against itself. */
  lemma StartBattleDistinctFighters(selection: seq<Fighter>)
    requires DistinctIds(selection)
    ensures StartBattle(selection).Some? ==>
      StartBattle(selection).value.fighter1Id != StartBattle(selection).value.fighter2Id
  {
  }

  /** The remembered selection of the leaderboard screen. */
  class SelectionState {
    var selectedFighters: seq<Fighter>

    ghost predicate Valid()
      reads this
    {
      |selectedFighters| <= 2 && DistinctIds(selectedFighters)
    }

    constructor ()
      ensures Valid() && selectedFighters == []
    {
      selectedFighters := [];
    }

    /** A tap on a fighter card writes the new selection back. */
    method SelectFighterForBattleTap(fighter: Fighter)
      requires Valid()
      modifies this
      ensures Valid()
      ensures selectedFighters == SelectFighterForBattle(old(selectedFighters), fighter)
      ensures IsSelected(fighter) <==> !old(IsSelected(fighter)) && |old(selectedFighters)| < 2
      ensures forall g: Fighter :: g.id != fighter.id ==> (IsSelected(g) <==> old(IsSelected(g)))
    {
      SelectionStaysValid(selectedFighters, fighter);
      forall g: Fighter | g.id != fighter.id {
        TapKeepsOtherHighlights(selectedFighters, fighter, g.id);
      }
      selectedFighters := SelectFighterForBattle(selectedFighters, fighter);
    }

    /** Whether a card is drawn as selected: some selected entry carries its
        id, whichever record that entry is. */
    function IsSelected(fighter: Fighter): (selected: bool)
      reads this
      ensures selected <==> exists g :: g in selectedFighters && g.id == fighter.id
    {
      HasId(selectedFighters, fighter.id)
    }
  }

  // ---------------------------------------------------------------------
  // Medals

  datatype Medal = Gold | Silver | Bronze

  /** The medal for a position in the wins-ordered list. */
  function MedalFor(rank: int): (m: Option<Medal>)
    ensures m.Some? <==> 0 <= rank < 3
    ensures m == Some(Gold) <==> rank == 0
    ensures m == Some(Silver) <==> rank == 1
    ensures m == Some(Bronze) <==> rank == 2
  {
    match rank
    case 0 => Some(Gold)
    case 1 => Some(Silver)
    case 2 => Some(Bronze)
    case _ => None
  }

  // ---------------------------------------------------------------------
  // Renaming

  /** `Char.isWhitespace()`: the Java whitespace characters and the Unicode
      space, line and paragraph separators. */
  predicate IsWhitespace(c: char)
  {
    || c == ' ' || c == '\t' || c == '\n' || c == '\r'
    || c == '\U{000B}' || c == '\U{000C}'
    || '\U{001C}' <= c <= '\U{001F}'
    || c == '\U{00A0}' || c == '\U{1680}'
    || '\U{2000}' <= c <= '\U{200A}'
    || c == '\U{2028}' || c == '\U{2029}' || c == '\U{202F}' || c == '\U{205F}' || c == '\U{3000}'
  }

  /** `isBlank()`: empty or whitespace only. */
  predicate IsBlank(s: string)
  {
    forall i :: 0 <= i < |s| ==> IsWhitespace(s[i])
  }

  /** The "Save" button of the rename dialog: a non-blank name yields the
      record to store, identical to the old one except for its name; a blank
      name yields nothing and the dialog stays open. */
  function Rename(fighter: Fighter, newName: string): (r: Option<Fighter>)
    ensures r.Some? <==> exists i :: 0 <= i < |newName| && !IsWhitespace(newName[i])
    ensures r.Some? ==> r.value.name == newName && r.value.(name := fighter.name) == fighter
  {
    if !IsBlank(newName) then Some(fighter.(name := newName)) else None
  }
}

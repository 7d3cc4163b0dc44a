/** What the page derives from the machine: the set of tiles that may still be
    chosen this turn (`possibleChoices`) and the event a click on a tile sends. */
module Board {
  import opened Seqs
  import opened Game

  /** `moves.flat()`: the moves laid end to end */
  function Flat(moves: seq<seq<int>>): (r: seq<int>)
    ensures forall x :: x in r <==> exists move :: move in moves && x in move
    decreases |moves|
  {
    if moves == [] then []
    else
      var rest := Flat(moves[1..]);
      assert forall move :: move in moves <==> move == moves[0] || move in moves[1..];
      moves[0] + rest
  }

  /** `new Set(xs)` */
  function Elements(xs: seq<int>): set<int> {
    set x | x in xs
  }

  /** The moves that contain every selected value */
  function Consistent(moves: seq<seq<int>>, selected: seq<int>): (r: seq<seq<int>>)
    ensures forall move :: move in r <==> move in moves && forall n :: n in selected ==> n in move
    ensures IsSubseq(r, moves)
  {
    FilterSubseq(moves, (move: seq<int>) => forall n :: n in selected ==> n in move);
    Filter(moves, (move: seq<int>) => forall n :: n in selected ==> n in move)
  }

  /** The legal-choice set. Outside `deciding` it is empty; with nothing
      selected it is every value of every move; otherwise it is every value of
      the moves that contain the whole selection, less the selection itself
      (the set difference proved to be `Difference.Difference`). */
  function LegalChoices(state: State, moves: seq<seq<int>>, selected: seq<int>): (r: set<int>)
    ensures state != Play(Deciding) ==> r == {}
    ensures r <= Elements(Flat(moves))
    ensures forall n :: n in selected ==> n !in r
  {
    if state != Play(Deciding) then {}
    else if |selected| == 0 then Elements(Flat(moves))
    else Elements(Flat(Consistent(moves, selected))) - Elements(selected)
  }

  /** A value is a legal choice exactly when the machine is deciding, the value
      is not selected yet, and some move contains it together with the whole
      selection: adding it keeps at least one move completable. */
  lemma LegalChoicesSpec(state: State, moves: seq<seq<int>>, selected: seq<int>, x: int)
    ensures x in LegalChoices(state, moves, selected) <==>
      && state == Play(Deciding)
      && x !in selected
      && exists move :: move in moves && x in move && forall n :: n in selected ==> n in move
  {
    if state == Play(Deciding) {
      if x !in selected && exists move :: move in moves && x in move && forall n :: n in selected ==> n in move {
        var move :| move in moves && x in move && forall n :: n in selected ==> n in move;
        assert move in Consistent(moves, selected);
      }
    }
  }

  /** A click on a tile deselects it when it is selected and selects it
      otherwise. */
  function TileClick(selected: seq<int>, choice: int): (e: Event)
    ensures e.SelectValue? || e.DeselectValue?
    ensures e.value == choice
    ensures e.DeselectValue? <==> choice in selected
  {
    if choice in selected then DeselectValue(choice) else SelectValue(choice)
  }

  /** Clicking a legal choice selects it; clicking it again undoes the
      selection, so two clicks leave the machine as it was. */
  lemma ClickTwiceRestores(m: Machine, choice: int)
    requires Settled(m) && m.state == Play(Deciding)
    requires choice in LegalChoices(m.state, m.ctx.possibleMoves, m.ctx.selectedValues)
    ensures var m1 := Step(m, TileClick(m.ctx.selectedValues, choice));
      && m1.ctx.selectedValues == m.ctx.selectedValues + [choice]
      && Step(m1, TileClick(m1.ctx.selectedValues, choice)) == m
  {
    var c := m.ctx;
    LegalChoicesSpec(m.state, c.possibleMoves, c.selectedValues, choice);
    SelectDeselectRoundTrip(m, choice);
    var m1 := Step(m, SelectValue(choice));
    assert choice in m1.ctx.selectedValues;
  }

  /** Every legal choice passes the machine's select guard. */
  lemma LegalChoiceIsSelectable(m: Machine, choice: int)
    requires choice in LegalChoices(m.state, m.ctx.possibleMoves, m.ctx.selectedValues)
    ensures CanSelectValue(m.ctx, choice)
  {
    LegalChoicesSpec(m.state, m.ctx.possibleMoves, m.ctx.selectedValues, choice);
  }
}

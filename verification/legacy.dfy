/** The older page `pages/index.js`, which carries its own copy of the game
    machine, guards, actions and legal-choice set. Its initial context leaves
    `currentRoll` and `possibleMoves` `undefined` (here `None`); a guard or a
    projection that would read a property of `undefined` throws, and returns
    `None` here. The lemmas show that this never happens in a game that can be
    reached, and that the older machine then behaves exactly like the typed one. */
module Legacy {
  import opened Wrappers
  import opened Sums
  import Game
  import Board

  datatype Context = Context(
    remainingNumbers: seq<int>,
    currentRoll: Option<seq<int>>,
    possibleMoves: Option<seq<seq<int>>>,
    selectedValues: seq<int>)

  datatype Machine = Machine(state: Game.State, ctx: Context)

  /** The page's own `allChoices`: tiles 1 to 10 */
  const AllChoices: seq<int> := [1, 2, 3, 4, 5, 6, 7, 8, 9, 10]

  const InitialContext: Context := Context(AllChoices, None, None, [])

  /** The typed context this one stands for: `undefined` reads as `[]` */
  function Erase(c: Context): Game.Context {
    Game.Context(c.remainingNumbers, c.currentRoll.GetOr([]), c.possibleMoves.GetOr([]), c.selectedValues)
  }

  /** The two machines are in the same state with the same context, and the
      older one has its moves defined once they have been computed. */
  predicate Agrees(lm: Machine, m: Game.Machine) {
    && lm.state == m.state
    && Erase(lm.ctx) == m.ctx
    && (m.state in {Game.Play(Game.Rolling), Game.Play(Game.Deciding)} ==> lm.ctx.possibleMoves.Some?)
  }

  // Guards

  function DidPlayerWin(c: Context): (r: bool)
    ensures r == Game.DidPlayerWin(Erase(c))
  {
    |c.remainingNumbers| == 0
  }

  /** `possibleMoves.length === 0`; throws while the moves are undefined */
  function DidPlayerLose(c: Context): (r: Option<bool>)
    ensures r.Some? <==> c.possibleMoves.Some?
    ensures r.Some? ==> r.value == Game.DidPlayerLose(Erase(c))
  {
    var moves :- c.possibleMoves;
    Some(|moves| == 0)
  }

  /** `possibleMoves.some((move) => move.includes(value))` */
  function CanSelectValue(c: Context, value: int): (r: Option<bool>)
    ensures r.Some? <==> c.possibleMoves.Some?
    ensures r.Some? ==> r.value == Game.CanSelectValue(Erase(c), value)
  {
    var moves :- c.possibleMoves;
    Some(exists move :: move in moves && value in move)
  }

  /** `selectedValues.length > 0 && sum(currentRoll) === sum(selectedValues)`;
      the roll is read only when something is selected. */
  function CanSubmit(c: Context): (r: Option<bool>)
    ensures r.None? <==> c.selectedValues != [] && c.currentRoll.None?
    ensures r.Some? ==> r.value == Game.CanSubmit(Erase(c))
  {
    if |c.selectedValues| > 0 then
      var roll :- c.currentRoll;
      Some(Sum(roll) == Sum(c.selectedValues))
    else Some(false)
  }

  // Actions

  function RollDice(c: Context, first: Game.Die, second: Game.Die): Context {
    c.(currentRoll := Some([first, second]))
  }

  function CalculateMoves(c: Context): Option<Context> {
    var roll :- c.currentRoll;
    Some(c.(possibleMoves := Some(Game.Moves(c.remainingNumbers, Sum(roll)))))
  }

  function AddSelected(c: Context, value: int): Context {
    c.(selectedValues := c.selectedValues + [value])
  }

  function RemoveSelected(c: Context, value: int): Context {
    c.(selectedValues := Game.Without(c.selectedValues, value))
  }

  function ClearSelectedValues(c: Context): Context {
    c.(selectedValues := [], currentRoll := Some([]))
  }

  function UpdateRemainingNumbers(c: Context): Context {
    c.(remainingNumbers := Game.CloseTiles(c.remainingNumbers, c.selectedValues))
  }

  // The machine, with the same table as the typed one

  function EnterWaiting(c: Context): Machine {
    Machine(Game.Play(Game.Waiting), ClearSelectedValues(c))
  }

  function EnterPlay(): Machine {
    EnterWaiting(InitialContext)
  }

  function Settle(m: Machine): (r: Option<Machine>)
    ensures r.None? <==> m.state == Game.Play(Game.Deciding) && m.ctx.possibleMoves.None?
  {
    match m.state
    case Play(Waiting) =>
      Some(if DidPlayerWin(m.ctx) then Machine(Game.Play(Game.Win), m.ctx) else m)
    case Play(Deciding) =>
      var lose :- DidPlayerLose(m.ctx);
      Some(if lose then Machine(Game.Play(Game.Lose), m.ctx) else m)
    case _ => Some(m)
  }

  function Transition(m: Machine, e: Game.Event): (r: Option<Machine>)
    ensures r.None? <==>
      && m.state == Game.Play(Game.Deciding)
      && ((e.SelectValue? && m.ctx.possibleMoves.None?)
          || (e.SubmitMove? && m.ctx.selectedValues != [] && m.ctx.currentRoll.None?))
  {
    match m.state
    case Lobby =>
      Some(if e.Start? then EnterPlay() else m)
    case Play(sub) =>
      if e.ForceWin? then Some(Machine(Game.Play(Game.Win), InitialContext))
      else if e.ForceLose? then Some(Machine(Game.Play(Game.Lose), InitialContext))
      else
        match sub
        case Waiting =>
          (match e
           case Roll(first, second) =>
             var c := CalculateMoves(RollDice(m.ctx, first, second));
             if c.None? then None else Some(Machine(Game.Play(Game.Rolling), c.value))
           case _ => Some(m))
        case Rolling =>
          Some(if e.DelayElapsed? then Machine(Game.Play(Game.Deciding), m.ctx) else m)
        case Deciding =>
          (match e
           case SelectValue(v) =>
             var ok :- CanSelectValue(m.ctx, v);
             Some(if ok then m.(ctx := AddSelected(m.ctx, v)) else m)
           case DeselectValue(v) => Some(m.(ctx := RemoveSelected(m.ctx, v)))
           case SubmitMove =>
             var ok :- CanSubmit(m.ctx);
             Some(if ok then EnterWaiting(UpdateRemainingNumbers(m.ctx)) else m)
           case _ => Some(m))
        case Win | Lose =>
          (match e
           case ToLobby => Some(Machine(Game.Lobby, m.ctx))
           case Retry => Some(EnterPlay())
           case _ => Some(m))
  }

  /** One event; `None` when a guard or action would throw */
  function Step(m: Machine, e: Game.Event): Option<Machine> {
    var t :- Transition(m, e);
    Settle(t)
  }

  function Initial(): Option<Machine> {
    Settle(EnterPlay())
  }

  /** The older page starts in `play.waiting` with tiles 1 to 10 open, the roll
      emptied by `waiting` and the moves still undefined; it stands for the
      typed machine's start. */
  lemma InitialSpec()
    ensures Initial() == Some(Machine(Game.Play(Game.Waiting), Context(AllChoices, Some([]), None, [])))
    ensures Agrees(Initial().value, Game.Initial())
  {
    Game.InitialSpec();
  }

  /** From any machine that stands for a reachable typed one, no event makes the
      older machine throw, and the result stands for the typed machine's result. */
  lemma StepSimulates(lm: Machine, m: Game.Machine, e: Game.Event)
    requires Game.Valid(m) && Agrees(lm, m)
    ensures Step(lm, e).Some?
    ensures Agrees(Step(lm, e).value, Game.Step(m, e))
  {
    if e.ForceWin? || e.ForceLose? {
      assert m.state.Play? ==> Transition(lm, e) == Some(Machine(m.state.(sub := if e.ForceWin? then Game.Win else Game.Lose), InitialContext));
    } else if m.state == Game.Play(Game.Deciding) {
      DecidingSimulates(lm, m, e);
    } else if m.state == Game.Play(Game.Waiting) {
      WaitingSimulates(lm, m, e);
    } else if m.state == Game.Play(Game.Rolling) {
      if e.DelayElapsed? {
        assert Transition(lm, e) == Some(lm.(state := Game.Play(Game.Deciding)));
      } else {
        assert Transition(lm, e) == Some(lm);
      }
    } else if m.state == Game.Lobby {
      if e.Start? {
        assert Transition(lm, e) == Some(EnterPlay());
      } else {
        assert Transition(lm, e) == Some(lm);
      }
    } else {
      assert m.state in {Game.Play(Game.Win), Game.Play(Game.Lose)};
    }
  }

  /** The `waiting` case of `StepSimulates` */
  lemma WaitingSimulates(lm: Machine, m: Game.Machine, e: Game.Event)
    requires Game.Valid(m) && Agrees(lm, m) && m.state == Game.Play(Game.Waiting)
    requires !e.ForceWin? && !e.ForceLose?
    ensures Step(lm, e).Some?
    ensures Agrees(Step(lm, e).value, Game.Step(m, e))
  {
    if e.Roll? {
      var rolled := RollDice(lm.ctx, e.first, e.second);
      var t := Machine(Game.Play(Game.Rolling), rolled.(possibleMoves := Some(Game.Moves(rolled.remainingNumbers, Sum([e.first, e.second])))));
      assert CalculateMoves(rolled) == Some(t.ctx);
      assert Transition(lm, e) == Some(t);
      assert Game.Transition(m, e) == Game.EnterRolling(m.ctx, e.first, e.second);
    } else {
      assert Transition(lm, e) == Some(lm);
      assert Game.Transition(m, e) == m;
    }
  }

  /** The `deciding` case of `StepSimulates` */
  lemma DecidingSimulates(lm: Machine, m: Game.Machine, e: Game.Event)
    requires Game.Valid(m) && Agrees(lm, m) && m.state == Game.Play(Game.Deciding)
    requires !e.ForceWin? && !e.ForceLose?
    ensures Step(lm, e).Some?
    ensures Agrees(Step(lm, e).value, Game.Step(m, e))
  {
    var c := lm.ctx;
    assert c.possibleMoves.Some? && c.currentRoll.Some?;
    match e
    case SelectValue(v) =>
      var t := if Game.CanSelectValue(m.ctx, v) then lm.(ctx := AddSelected(c, v)) else lm;
      assert Transition(lm, e) == Some(t);
      assert Settle(t) == Some(t);
    case DeselectValue(v) =>
      var t := lm.(ctx := RemoveSelected(c, v));
      assert Transition(lm, e) == Some(t);
      assert Settle(t) == Some(t);
    case SubmitMove =>
      var t := if Game.CanSubmit(m.ctx) then EnterWaiting(UpdateRemainingNumbers(c)) else lm;
      assert Transition(lm, e) == Some(t);
    case Start | Roll(_, _) | DelayElapsed | ToLobby | Retry =>
      assert Transition(lm, e) == Some(lm);
  }

  /** `possibleChoices` of the older page: empty outside `deciding`, the values
      of all moves when nothing is selected, and otherwise the values of the
      moves holding the whole selection less the selection. */
  function LegalChoices(state: Game.State, moves: Option<seq<seq<int>>>, selected: seq<int>): (r: Option<set<int>>)
    ensures r.None? <==> state == Game.Play(Game.Deciding) && moves.None?
    ensures r.Some? ==> r.value == Board.LegalChoices(state, moves.GetOr([]), selected)
  {
    if state != Game.Play(Game.Deciding) then Some({})
    else
      var ms :- moves;
      if |selected| == 0 then Some(Board.Elements(Board.Flat(ms)))
      else Some(Board.Elements(Board.Flat(Board.Consistent(ms, selected))) - Board.Elements(selected))
  }

  /** For a machine that stands for a reachable typed one, the older page's
      legal-choice set is defined and equals the typed page's. */
  lemma LegalChoicesAgree(lm: Machine, m: Game.Machine)
    requires Game.Valid(m) && Agrees(lm, m)
    ensures LegalChoices(lm.state, lm.ctx.possibleMoves, lm.ctx.selectedValues)
      == Some(Board.LegalChoices(m.state, m.ctx.possibleMoves, m.ctx.selectedValues))
  {
    if m.state == Game.Play(Game.Deciding) {
      assert lm.ctx.possibleMoves.Some?;
    }
  }
}

/** The Shut the Box game controller: the statechart of `lib/gameStateMachine.ts`
    as a pure transition function. The machine is `lobby` or `play` with the
    substates `waiting`, `rolling`, `deciding`, `win` and `lose`; its context holds
    the open tiles, the current roll, the moves that fit the roll and the tiles
    selected this turn. Dice come in as event payloads, and the 1000 ms delay of
    `rolling` is the explicit event `DelayElapsed`. */
module Game {
  import opened Seqs
  import opened Sums
  import opened Powersets

  /** The tiles of a fresh game, 1 to 10 */
  const AllChoices: seq<int> := [1, 2, 3, 4, 5, 6, 7, 8, 9, 10]

  /** The value of one die */
  type Die = d: int | 1 <= d <= 6 witness 1

  datatype Context = Context(
    remainingNumbers: seq<int>,
    currentRoll: seq<int>,
    possibleMoves: seq<seq<int>>,
    selectedValues: seq<int>)

  const InitialContext: Context := Context(AllChoices, [], [], [])

  /** The substates of `play` */
  datatype Sub = Waiting | Rolling | Deciding | Win | Lose

  datatype State = Lobby | Play(sub: Sub)

  /** `START`, `WIN`, `LOSE`, `ROLL` (with the two dice), the delay of `rolling`
      running out, `SELECT_VALUE`, `DESELECT_VALUE`, `SUBMIT_MOVE`, `LOBBY` and
      `RETRY`. */
  datatype Event =
    | Start
    | ForceWin
    | ForceLose
    | Roll(first: Die, second: Die)
    | DelayElapsed
    | SelectValue(value: int)
    | DeselectValue(value: int)
    | SubmitMove
    | ToLobby
    | Retry

  datatype Machine = Machine(state: State, ctx: Context)

  // Guards

  predicate DidPlayerWin(c: Context) {
    |c.remainingNumbers| == 0
  }

  predicate DidPlayerLose(c: Context) {
    |c.possibleMoves| == 0
  }

  /** `possibleMoves.some((move) => move.includes(value))` */
  predicate CanSelectValue(c: Context, value: int) {
    exists move :: move in c.possibleMoves && value in move
  }

  predicate CanSubmit(c: Context) {
    |c.selectedValues| > 0 && Sum(c.currentRoll) == Sum(c.selectedValues)
  }

  // Actions

  function RollDice(c: Context, first: Die, second: Die): Context {
    c.(currentRoll := [first, second])
  }

  /** The subsets of `remaining`, in powerset order, whose total is `total` */
  function Moves(remaining: seq<int>, total: int): seq<seq<int>> {
    Filter(Powerset(remaining), (move: seq<int>) => Sum(move) == total)
  }

  function CalculateMoves(c: Context): Context {
    c.(possibleMoves := Moves(c.remainingNumbers, Sum(c.currentRoll)))
  }

  function AddSelected(c: Context, value: int): Context {
    c.(selectedValues := c.selectedValues + [value])
  }

  /** `selectedValues.filter((v) => v !== value)` */
  function Without(xs: seq<int>, value: int): seq<int> {
    Filter(xs, (x: int) => x != value)
  }

  function RemoveSelected(c: Context, value: int): Context {
    c.(selectedValues := Without(c.selectedValues, value))
  }

  function ClearSelectedValues(c: Context): Context {
    c.(selectedValues := [], currentRoll := [])
  }

  /** `remainingNumbers.filter((n) => !selectedValues.includes(n))` */
  function CloseTiles(remaining: seq<int>, selected: seq<int>): seq<int> {
    Filter(remaining, (n: int) => n !in selected)
  }

  function UpdateRemainingNumbers(c: Context): Context {
    c.(remainingNumbers := CloseTiles(c.remainingNumbers, c.selectedValues))
  }

  /** The events each state lists in its `on` or `after` table; `WIN` and
      `LOSE` are listed on `play` and so apply in each of its substates. */
  predicate Handles(s: State, e: Event) {
    match s
    case Lobby => e.Start?
    case Play(sub) =>
      || e.ForceWin? || e.ForceLose?
      || (sub == Waiting && e.Roll?)
      || (sub == Rolling && e.DelayElapsed?)
      || (sub == Deciding && (e.SelectValue? || e.DeselectValue? || e.SubmitMove?))
      || (sub in {Win, Lose} && (e.ToLobby? || e.Retry?))
  }

  // Entering states

  /** Entry of `waiting` clears the selection and the roll */
  function EnterWaiting(c: Context): Machine {
    Machine(Play(Waiting), ClearSelectedValues(c))
  }

  /** Entering `play` resets the context and enters its initial substate */
  function EnterPlay(): Machine {
    EnterWaiting(InitialContext)
  }

  /** Entry of `rolling` rolls the dice, then computes the moves for them */
  function EnterRolling(c: Context, first: Die, second: Die): Machine {
    Machine(Play(Rolling), CalculateMoves(RollDice(c, first, second)))
  }

  /** The `always` transitions: `waiting` with no open tile is won, `deciding`
      with no move is lost. */
  function Settle(m: Machine): (r: Machine)
    ensures Settled(r) && r.ctx == m.ctx
    ensures r.state == m.state
      || (m.state == Play(Waiting) && r.state == Play(Win))
      || (m.state == Play(Deciding) && r.state == Play(Lose))
  {
    match m.state
    case Play(Waiting) =>
      if DidPlayerWin(m.ctx) then Machine(Play(Win), m.ctx) else m
    case Play(Deciding) =>
      if DidPlayerLose(m.ctx) then Machine(Play(Lose), m.ctx) else m
    case _ => m
  }

  /** The `on` and `after` table. `WIN` and `LOSE` are handled by `play` with
      external transitions, so `play` is left and re-entered and its entry action
      resets the context. An event no state handles, or whose guard fails,
      leaves the machine as it is. */
  function Transition(m: Machine, e: Event): (r: Machine)
    ensures r != m ==> Handles(m.state, e)
  {
    match m.state
    case Lobby =>
      if e.Start? then EnterPlay() else m
    case Play(sub) =>
      if e.ForceWin? then Machine(Play(Win), InitialContext)
      else if e.ForceLose? then Machine(Play(Lose), InitialContext)
      else
        match sub
        case Waiting =>
          (match e
           case Roll(first, second) => EnterRolling(m.ctx, first, second)
           case _ => m)
        case Rolling =>
          if e.DelayElapsed? then Machine(Play(Deciding), m.ctx) else m
        case Deciding =>
          (match e
           case SelectValue(v) =>
             if CanSelectValue(m.ctx, v) then m.(ctx := AddSelected(m.ctx, v)) else m
           case DeselectValue(v) => m.(ctx := RemoveSelected(m.ctx, v))
           case SubmitMove =>
             if CanSubmit(m.ctx) then EnterWaiting(UpdateRemainingNumbers(m.ctx)) else m
           case _ => m)
        case Win | Lose =>
          (match e
           case ToLobby => Machine(Lobby, m.ctx)
           case Retry => EnterPlay()
           case _ => m)
  }

  /** One event, run to completion: the transition, then the `always` guards */
  function Step(m: Machine, e: Event): Machine {
    Settle(Transition(m, e))
  }

  /** The machine as it starts: `play` entered directly, in `waiting` */
  function Initial(): Machine {
    Settle(EnterPlay())
  }

  // Properties

  /** `move` is a move for the roll total `total` over the open tiles */
  predicate IsMove(move: seq<int>, remaining: seq<int>, total: int) {
    move != [] && IsSubseq(move, remaining) && Sum(move) == total
  }

  predicate Rolled(c: Context) {
    && |c.currentRoll| == 2
    && 1 <= c.currentRoll[0] <= 6
    && 1 <= c.currentRoll[1] <= 6
    && c.possibleMoves == Moves(c.remainingNumbers, Sum(c.currentRoll))
  }

  /** Open tiles are distinct tiles between 1 and 10 */
  predicate Tiles(remaining: seq<int>) {
    Distinct(remaining) && forall v :: v in remaining ==> 1 <= v <= 10
  }

  /** What holds of every machine the game can reach */
  predicate Valid(m: Machine) {
    var c := m.ctx;
    && Tiles(c.remainingNumbers)
    && match m.state
       case Lobby => c.selectedValues == []
       case Play(Waiting) =>
         c.currentRoll == [] && c.selectedValues == [] && c.remainingNumbers != []
       case Play(Rolling) => Rolled(c) && c.selectedValues == []
       case Play(Deciding) =>
         && Rolled(c)
         && c.possibleMoves != []
         && forall v :: v in c.selectedValues ==> CanSelectValue(c, v)
       case Play(Win) => c.selectedValues == []
       case Play(Lose) => c.selectedValues == []
  }

  /** The `always` guards of the current state do not fire */
  predicate Settled(m: Machine) {
    && (m.state == Play(Waiting) ==> m.ctx.remainingNumbers != [])
    && (m.state == Play(Deciding) ==> m.ctx.possibleMoves != [])
  }

  /** The moves are exactly the non-empty subsequences of the open tiles with
      the right total; for duplicate-free tiles none is listed twice. */
  lemma MovesSpec(remaining: seq<int>, total: int)
    ensures forall move :: move in Moves(remaining, total) <==> IsMove(move, remaining, total)
    ensures Distinct(remaining) ==> Distinct(Moves(remaining, total))
  {
    PowersetMembers(remaining);
    if Distinct(remaining) {
      PowersetDistinct(remaining);
      FilterSubseq(Powerset(remaining), (move: seq<int>) => Sum(move) == total);
      SubseqDistinct(Moves(remaining, total), Powerset(remaining));
    }
  }

  /** Every tile of a move is open */
  lemma MoveTilesAreOpen(remaining: seq<int>, total: int, move: seq<int>, v: int)
    requires move in Moves(remaining, total) && v in move
    ensures v in remaining
  {
    MovesSpec(remaining, total);
    SubseqElements(move, remaining);
  }

  /** The game starts in `play.waiting` with tiles 1 to 10 open and nothing
      rolled, moved or selected. */
  lemma InitialSpec()
    ensures Initial() == Machine(Play(Waiting), Context(AllChoices, [], [], []))
    ensures Valid(Initial())
  {
  }

  /** In a reachable machine every selected tile is open, and while rolling or
      deciding every listed move is a set of open tiles with the roll's total. */
  lemma ValidFacts(m: Machine)
    requires Valid(m)
    ensures forall v :: v in m.ctx.selectedValues ==> v in m.ctx.remainingNumbers
    ensures m.state in {Play(Rolling), Play(Deciding)} ==>
      forall move :: move in m.ctx.possibleMoves ==>
        IsMove(move, m.ctx.remainingNumbers, Sum(m.ctx.currentRoll))
  {
    var c := m.ctx;
    if m.state in {Play(Rolling), Play(Deciding)} {
      MovesSpec(c.remainingNumbers, Sum(c.currentRoll));
    }
    forall v | v in c.selectedValues
      ensures v in c.remainingNumbers
    {
      var move :| move in c.possibleMoves && v in move;
      MoveTilesAreOpen(c.remainingNumbers, Sum(c.currentRoll), move, v);
    }
  }

  /** Closing tiles keeps the open tiles distinct tiles of 1 to 10 */
  lemma CloseTilesKeepsTiles(remaining: seq<int>, selected: seq<int>)
    requires Tiles(remaining)
    ensures Tiles(CloseTiles(remaining, selected))
  {
    FilterSubseq(remaining, (n: int) => n !in selected);
    SubseqDistinct(CloseTiles(remaining, selected), remaining);
  }

  /** Selecting a value some move contains keeps a reachable machine reachable */
  lemma SelectPreservesValid(m: Machine, v: int)
    requires Valid(m) && m.state == Play(Deciding)
    ensures Valid(Step(m, SelectValue(v)))
  {
    var c := m.ctx;
    if CanSelectValue(c, v) {
      var c' := AddSelected(c, v);
      assert Transition(m, SelectValue(v)) == Machine(Play(Deciding), c');
      assert Rolled(c');
      assert forall x :: x in c'.selectedValues ==> x in c.selectedValues || x == v;
    } else {
      assert Transition(m, SelectValue(v)) == m;
    }
  }

  /** Deselecting keeps a reachable machine reachable */
  lemma DeselectPreservesValid(m: Machine, v: int)
    requires Valid(m) && m.state == Play(Deciding)
    ensures Valid(Step(m, DeselectValue(v)))
  {
    var c := m.ctx;
    var c' := RemoveSelected(c, v);
    assert Transition(m, DeselectValue(v)) == Machine(Play(Deciding), c');
    assert Rolled(c');
    assert forall x :: x in c'.selectedValues ==> x in c.selectedValues;
  }

  /** Submitting keeps a reachable machine reachable */
  lemma SubmitPreservesValid(m: Machine)
    requires Valid(m) && m.state == Play(Deciding)
    ensures Valid(Step(m, SubmitMove))
  {
    var c := m.ctx;
    if CanSubmit(c) {
      CloseTilesKeepsTiles(c.remainingNumbers, c.selectedValues);
    }
  }

  /** Every event keeps a reachable machine reachable */
  lemma StepPreservesValid(m: Machine, e: Event)
    requires Valid(m)
    ensures Valid(Step(m, e))
  {
    InitialSpec();
    if e.ForceWin? || e.ForceLose? {
      assert m.state.Play? ==> Step(m, e).ctx == InitialContext;
    } else {
      match m.state
      case Play(Deciding) =>
        match e {
          case SelectValue(v) => SelectPreservesValid(m, v);
          case DeselectValue(v) => DeselectPreservesValid(m, v);
          case SubmitMove => SubmitPreservesValid(m);
          case Start | Roll(_, _) | DelayElapsed | ToLobby | Retry =>
            assert Step(m, e) == m;
        }
      case Play(Waiting) =>
        if e.Roll? {
          assert Step(m, e) == EnterRolling(m.ctx, e.first, e.second);
        } else {
          assert Step(m, e) == m;
        }
      case Play(Rolling) =>
        if e.DelayElapsed? {
          assert Transition(m, e) == Machine(Play(Deciding), m.ctx);
        } else {
          assert Step(m, e) == m;
        }
      case Lobby =>
        assert Step(m, e) == if e.Start? then Initial() else m;
      case Play(Win) =>
        assert Step(m, e) in {Initial(), Machine(Lobby, m.ctx), m};
      case Play(Lose) =>
        assert Step(m, e) in {Initial(), Machine(Lobby, m.ctx), m};
    }
  }

  /** `ROLL` is taken only in `waiting`: it stores the dice as the current roll
      and lists exactly the moves whose total is the dice's sum. */
  lemma RollSpec(m: Machine, first: Die, second: Die)
    requires Settled(m)
    ensures m.state == Play(Waiting) ==>
      var m' := Step(m, Roll(first, second));
      && m'.state == Play(Rolling)
      && m'.ctx.currentRoll == [first, second]
      && m'.ctx.remainingNumbers == m.ctx.remainingNumbers
      && m'.ctx.selectedValues == m.ctx.selectedValues
      && forall move :: move in m'.ctx.possibleMoves <==>
           IsMove(move, m.ctx.remainingNumbers, first + second)
    ensures m.state != Play(Waiting) ==> Step(m, Roll(first, second)) == m
  {
    if m.state == Play(Waiting) {
      var c := RollDice(m.ctx, first, second);
      SumPair(first, second);
      assert Transition(m, Roll(first, second)) == Machine(Play(Rolling), CalculateMoves(c));
      MovesSpec(m.ctx.remainingNumbers, first + second);
    }
  }

  /** When the delay of `rolling` runs out the machine decides, or loses at once
      if no move fits; anywhere else the delay event changes nothing, so a
      delay scheduled by a `rolling` that was left never fires. */
  lemma DelaySpec(m: Machine)
    requires Settled(m)
    ensures m.state == Play(Rolling) ==>
      Step(m, DelayElapsed) ==
        Machine(if m.ctx.possibleMoves == [] then Play(Lose) else Play(Deciding), m.ctx)
    ensures m.state != Play(Rolling) ==> Step(m, DelayElapsed) == m
  {
  }

  /** `SELECT_VALUE` in `deciding` appends the value exactly when some move
      contains it, and otherwise changes nothing. */
  lemma SelectValueSpec(m: Machine, v: int)
    requires Settled(m) && m.state == Play(Deciding)
    ensures var m' := Step(m, SelectValue(v));
      && m'.state == Play(Deciding)
      && m'.ctx.remainingNumbers == m.ctx.remainingNumbers
      && m'.ctx.possibleMoves == m.ctx.possibleMoves
      && m'.ctx.currentRoll == m.ctx.currentRoll
      && (m'.ctx.selectedValues == m.ctx.selectedValues + [v] <==>
           exists move :: move in m.ctx.possibleMoves && v in move)
      && ((forall move :: move in m.ctx.possibleMoves ==> v !in move) ==> m' == m)
  {
  }

  /** `DESELECT_VALUE` in `deciding` removes every occurrence of the value, keeps
      each other selected value as often as before and in the same order, and
      changes nothing else. */
  lemma DeselectValueSpec(m: Machine, v: int)
    requires Settled(m) && m.state == Play(Deciding)
    ensures var m' := Step(m, DeselectValue(v));
      && m'.state == Play(Deciding)
      && m'.ctx == m.ctx.(selectedValues := m'.ctx.selectedValues)
      && v !in m'.ctx.selectedValues
      && IsSubseq(m'.ctx.selectedValues, m.ctx.selectedValues)
      && forall x :: x != v ==>
           multiset(m'.ctx.selectedValues)[x] == multiset(m.ctx.selectedValues)[x]
  {
    var c := m.ctx;
    assert Transition(m, DeselectValue(v)) == Machine(Play(Deciding), RemoveSelected(c, v));
    FilterSubseq(c.selectedValues, (x: int) => x != v);
    FilterCounts(c.selectedValues, (x: int) => x != v);
  }

  /** Removing a value just appended, and found nowhere before, gives back the
      original sequence. */
  lemma WithoutUndoesAppend(xs: seq<int>, v: int)
    requires v !in xs
    ensures Without(xs + [v], v) == xs
  {
    var ys := xs + [v];
    assert ys[..|ys| - 1] == xs;
    FilterKeepsAll(xs, (x: int) => x != v);
  }

  /** Deselecting a value right after selecting it, when it was not selected
      before, restores the machine. */
  lemma SelectDeselectRoundTrip(m: Machine, v: int)
    requires Settled(m) && m.state == Play(Deciding)
    requires v !in m.ctx.selectedValues && CanSelectValue(m.ctx, v)
    ensures Step(m, SelectValue(v)) == Machine(Play(Deciding), AddSelected(m.ctx, v))
    ensures Step(Step(m, SelectValue(v)), DeselectValue(v)) == m
  {
    var c := m.ctx;
    assert Transition(m, SelectValue(v)) == Machine(Play(Deciding), AddSelected(c, v));
    var m1 := Machine(Play(Deciding), AddSelected(c, v));
    WithoutUndoesAppend(c.selectedValues, v);
    assert RemoveSelected(AddSelected(c, v), v) == c;
    assert Transition(m1, DeselectValue(v)) == m;
    assert Settle(m) == m;
  }

  /** `SUBMIT_MOVE` in `deciding` is taken exactly when something is selected and
      its total is the roll's. It then closes every selected tile, keeping the
      other open tiles in order, clears roll and selection, and returns to
      `waiting`, or to `win` when no tile is left open. */
  lemma SubmitSpec(m: Machine)
    requires Valid(m) && m.state == Play(Deciding)
    ensures var m' := Step(m, SubmitMove);
      && (m' != m <==> m.ctx.selectedValues != [] &&
                       Sum(m.ctx.selectedValues) == Sum(m.ctx.currentRoll))
      && (m' != m ==>
           && m'.state == (if m'.ctx.remainingNumbers == [] then Play(Win) else Play(Waiting))
           && m'.ctx.selectedValues == [] && m'.ctx.currentRoll == []
           && m'.ctx.possibleMoves == m.ctx.possibleMoves
           && IsSubseq(m'.ctx.remainingNumbers, m.ctx.remainingNumbers)
           && (forall n :: n in m'.ctx.remainingNumbers <==>
                 n in m.ctx.remainingNumbers && n !in m.ctx.selectedValues)
           && |m'.ctx.remainingNumbers| < |m.ctx.remainingNumbers|)
  {
    var c := m.ctx;
    if CanSubmit(c) {
      ValidFacts(m);
      var v := c.selectedValues[0];
      FilterShrinks(c.remainingNumbers, (n: int) => n !in c.selectedValues, v);
      FilterSubseq(c.remainingNumbers, (n: int) => n !in c.selectedValues);
    }
  }

  /** Nothing stops a value from being selected twice: with an empty selection,
      selecting a value twice whose double is the roll's total passes the submit
      guard, yet closes only that one tile. */
  lemma DuplicateSelection(m: Machine, v: int)
    requires Settled(m) && m.state == Play(Deciding) && m.ctx.selectedValues == []
    requires CanSelectValue(m.ctx, v) && Sum(m.ctx.currentRoll) == 2 * v
    ensures var m2 := Step(Step(m, SelectValue(v)), SelectValue(v));
      && m2.ctx.selectedValues == [v, v]
      && CanSubmit(m2.ctx)
      && var m3 := Step(m2, SubmitMove);
         && v !in m3.ctx.remainingNumbers
         && forall n :: n != v ==> (n in m3.ctx.remainingNumbers <==> n in m.ctx.remainingNumbers)
  {
    var c := m.ctx;
    var m1 := Step(m, SelectValue(v));
    assert m1 == Machine(Play(Deciding), AddSelected(c, v));
    var m2 := Step(m1, SelectValue(v));
    assert m2 == Machine(Play(Deciding), AddSelected(m1.ctx, v));
    assert m2.ctx.selectedValues == [v, v];
    SumPair(v, v);
    assert Transition(m2, SubmitMove) == EnterWaiting(UpdateRemainingNumbers(m2.ctx));
  }

  /** `RETRY` from `win` or `lose` starts a fresh game; `LOBBY` leaves for the
      lobby, and `START` there starts a fresh game too. */
  lemma RestartSpec(m: Machine)
    requires Settled(m)
    ensures m.state in {Play(Win), Play(Lose)} ==>
      Step(m, Retry) == Initial() && Step(m, ToLobby) == Machine(Lobby, m.ctx)
    ensures m.state == Lobby ==> Step(m, Start) == Initial()
    ensures m.state !in {Play(Win), Play(Lose)} ==> Step(m, Retry) == m
  {
  }

  /** `WIN` and `LOSE` reach their state from anywhere in `play`, with a fresh
      context, and are ignored in the lobby. */
  lemma ForceEndSpec(m: Machine)
    requires Settled(m)
    ensures m.state.Play? ==> Step(m, ForceWin) == Machine(Play(Win), InitialContext)
    ensures m.state.Play? ==> Step(m, ForceLose) == Machine(Play(Lose), InitialContext)
    ensures m.state == Lobby ==> Step(m, ForceWin) == m && Step(m, ForceLose) == m
  {
  }

  /** The choices of the turn are accepted only in `deciding`; in every other
      state they are ignored. */
  lemma DecidingOnly(m: Machine, v: int)
    requires Settled(m) && m.state != Play(Deciding)
    ensures Step(m, SelectValue(v)) == m
    ensures Step(m, DeselectValue(v)) == m
    ensures Step(m, SubmitMove) == m
  {
  }
}

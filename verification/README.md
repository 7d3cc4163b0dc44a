# Shut the Box: the rules engine in Dafny

This project models the rules engine of a single-player Shut the Box game. Tiles
1 to 10 start open. Each turn the player rolls two dice and then closes a set of
open tiles whose total equals the roll. The game is won when every tile is
closed, and lost when no set of open tiles fits a roll.

The engine is a statechart with the states `lobby` and `play`. `play` has the
substates `waiting`, `rolling`, `deciding`, `win` and `lose`. Its context holds:

- the open tiles (`remainingNumbers`);
- the roll (`currentRoll`);
- the moves that fit the roll (`possibleMoves`);
- the tiles selected this turn (`selectedValues`).

The model is made of these modules:

- `Sums` is `sum`, a left fold of `+` from 0.
- `Powersets` is `powerset`, the fold that doubles its list of subsets for every
  input value and then drops the leading empty list.
- `Difference` is the set difference as written: copy the first set, then delete
  the elements of the second.
- `Game` is the typed machine as a pure function `Step(machine, event)`. `Settle`
  models the `always` guards: `waiting` with no open tile moves to `win`, and
  `deciding` with no move moves to `lose`. Die values come in as the payload of
  the `Roll` event (`Die` is 1..6). The 1000 ms delay of `rolling` is the
  explicit event `DelayElapsed`. `Valid` is the invariant of every machine the
  game can reach.
- `Board` holds the page's legal-choice set `possibleChoices` and the tile-click
  rule.
- `Legacy` is the older page's own copy of the machine. There, `currentRoll` and
  `possibleMoves` start `undefined` (`Option.None`), and a guard that would read
  them then would throw (`None`). A simulation lemma shows this never happens in
  a reachable game, and that the older machine then behaves like the typed one.
- `Seqs` and `Wrappers` are helpers: subsequences, order-preserving filtering,
  duplicate-freedom and `Option`.

`WIN` and `LOSE` are declared on `play` with the target `#play.win`/`#play.lose`.
In the statechart library, a transition whose target is given by id is external.
`play` is therefore left and re-entered, and its entry action `resetGameState`
runs. The model consequently resets the context on these two events. After a
submit, `waiting` clears only the selection and the roll. The stale
`possibleMoves` stays in the context until the next roll, as the code does.

## Model

| member | source | states |
|---|---|---|
| Sums.SumIsTotal | pages/index.js:118-120 | the left fold of `+` from 0 equals the arithmetic total of the list, and the total of `[]` is 0 |
| Sums.SumAppend | pages/index.js:118-120 | the sum of a concatenation is the sum of the sums |
| Sums.SumPair | lib/gameStateMachine.ts:155 | the total of a two-dice roll is the sum of the two dice |
| Sums.SumExample | pages/index.js:118-120 | `sum([])` is 0 and `sum([4, 2, 10])` is 16 |
| Powersets.Fold | lib/powerset.ts:3-5 | folding k values into a list of s subsets yields s·2^k lists |
| Powersets.Powerset | lib/powerset.ts:1-8 | an input of length n gives 2^n − 1 lists; an empty input gives none |
| Powersets.FoldSnoc | lib/powerset.ts:4 | each fold step keeps every list built so far in place and appends, after them, copies extended by the new value |
| Powersets.SubsetsShape | lib/powerset.ts:2-5 | before the shift, the first list is the empty one, no later list is empty, and the lists are exactly the subsequences of the input |
| Powersets.PowersetMembers | lib/powerset.ts:2-7 | a list is in the output if and only if it is non-empty and a subsequence of the input in the input's order |
| Powersets.ExtendDistinct | lib/powerset.ts:4 | a fold step keeps the list duplicate-free when the new value is in none of the lists so far |
| Powersets.PowersetDistinct | lib/powerset.ts:2-7 | for an input without repeats, no list appears twice |
| Powersets.PowersetExample | lib/powerset.test.ts:4-12 | `powerset([1,2,3])` is `[1],[2],[1,2],[3],[1,3],[2,3],[1,2,3]` in that order |
| Difference.Difference | lib/difference.ts:1-10 | the result is inside `setA`, holds no element of `setB`, and holds every element of `setA` not in `setB`; subtracting `{}` gives `setA` and subtracting `setA` gives `{}` |
| Seqs.Filter | lib/gameStateMachine.ts:164-168 | `filter` keeps exactly the elements that pass and never lengthens the list |
| Seqs.FilterSubseq | lib/gameStateMachine.ts:164-168 | `filter` keeps the kept elements in their original order |
| Seqs.FilterCounts | lib/gameStateMachine.ts:44-48 | `filter` keeps every passing element as often as it occurred, and drops every failing one entirely |
| Seqs.FilterShrinks | lib/gameStateMachine.ts:164-168 | when some element fails the test, the filtered list is strictly shorter |
| Game.Moves | lib/gameStateMachine.ts:154-158 | defines the move list, the subsets of the open tiles in powerset order with the roll's total; `Game.MovesSpec` states what it holds |
| Game.MovesSpec | lib/gameStateMachine.ts:154-159 | a list is a computed move if and only if it is a non-empty subsequence of the open tiles whose total is the roll; for distinct tiles no move is listed twice |
| Game.MoveTilesAreOpen | lib/gameStateMachine.ts:154-159 | every tile of a computed move is open |
| Game.InitialSpec | lib/gameStateMachine.ts:10-15 | the machine starts in `play.waiting` with tiles 1..10 open and empty roll, moves and selection, and that start is valid |
| Game.ValidFacts | lib/gameStateMachine.ts:139-169 | in a reachable machine every selected tile is open; while rolling or deciding every move is a subset of the open tiles with the roll's total |
| Game.CloseTilesKeepsTiles | lib/gameStateMachine.ts:164-168 | closing tiles keeps the open tiles distinct tiles of 1..10 |
| Game.SelectPreservesValid | lib/gameStateMachine.ts:97-100 | an accepted or refused select keeps a reachable machine reachable |
| Game.DeselectPreservesValid | lib/gameStateMachine.ts:101-103 | a deselect keeps a reachable machine reachable |
| Game.SubmitPreservesValid | lib/gameStateMachine.ts:104-108 | a submit keeps a reachable machine reachable |
| Game.StepPreservesValid | lib/gameStateMachine.ts:62-132 | every event keeps the machine inside the reachable-state invariant |
| Game.CanSelectValue | lib/gameStateMachine.ts:142-143 | defines the select guard, no contract; `Game.SelectValueSpec` and `Board.LegalChoiceIsSelectable` state its effect |
| Game.CanSubmit | lib/gameStateMachine.ts:144-145 | defines the submit guard, no contract; `Game.SubmitSpec` states when a submit is accepted |
| Game.Settle | lib/gameStateMachine.ts:86-95 | the `always` guards leave a machine in which they no longer fire; they keep the context and change the state only from `waiting` to `win` or from `deciding` to `lose` |
| Game.Transition | lib/gameStateMachine.ts:62-132 | an event changes the machine only if the current state lists it in its `on` or `after` table, with `WIN`/`LOSE` listed on `play` |
| Game.RollSpec | lib/gameStateMachine.ts:81-93 | `ROLL` is accepted only in `waiting`; it stores the two dice, leaves tiles and selection alone, and lists exactly the non-empty subsets of the open tiles whose total is the dice's sum |
| Game.DelaySpec | lib/gameStateMachine.ts:88-95 | the delay moves `rolling` to `deciding`, or straight to `lose` when there is no move; in any other state it changes nothing |
| Game.SelectValueSpec | lib/gameStateMachine.ts:94-100 | in `deciding`, `SELECT_VALUE(v)` appends v if and only if some move contains v, and otherwise changes nothing |
| Game.DeselectValueSpec | lib/gameStateMachine.ts:41-48 | `DESELECT_VALUE(v)` removes every v and keeps the other selected values in order with their counts; nothing else changes |
| Game.WithoutUndoesAppend | lib/gameStateMachine.ts:44-48 | removing a value that was just appended, and absent before, restores the list |
| Game.SelectDeselectRoundTrip | lib/gameStateMachine.ts:33-48 | selecting a new value and then deselecting it restores the machine |
| Game.SubmitSpec | lib/gameStateMachine.ts:104-108 | `SUBMIT_MOVE` is accepted if and only if the selection is non-empty with the roll's total; it then closes exactly the selected tiles in order, clears roll and selection, keeps the stale moves, closes at least one tile, and enters `waiting`, or `win` when no tile is left |
| Game.DuplicateSelection | lib/gameStateMachine.ts:97-100 | nothing prevents selecting a value twice; twice a value whose double is the roll passes the submit guard yet closes only that tile |
| Game.RestartSpec | lib/gameStateMachine.ts:111-128 | `RETRY` from `win`/`lose` gives the initial machine, `LOBBY` goes to `lobby`, `START` from `lobby` gives the initial machine, and `RETRY` elsewhere is ignored |
| Game.ForceEndSpec | lib/gameStateMachine.ts:72-79 | `WIN`/`LOSE` reach `win`/`lose` from anywhere in `play`, with the context reset, and are ignored in `lobby` |
| Game.DecidingOnly | lib/gameStateMachine.ts:94-109 | select, deselect and submit are ignored outside `deciding` |
| Board.Flat | pages/index.tsx:59 | a value is in the flattened moves if and only if some move contains it |
| Board.Consistent | pages/index.tsx:62-65 | the moves kept are exactly those holding every selected value, in their original order |
| Board.LegalChoices | pages/index.tsx:56-74 | the legal-choice set is empty outside `deciding`, lies inside the union of the moves, and never holds a selected value |
| Board.LegalChoicesSpec | pages/index.tsx:56-74 | v is a legal choice if and only if the machine is deciding, v is unselected, and some move holds v and the whole selection; with nothing selected this is the union of the moves |
| Board.LegalChoiceIsSelectable | pages/index.tsx:56-74 | every legal choice passes the machine's select guard |
| Board.TileClick | pages/index.tsx:119-125 | a click sends deselect for a selected tile and select otherwise |
| Board.ClickTwiceRestores | pages/index.tsx:119-125 | clicking a legal tile selects it, and clicking it again returns the machine to where it was |
| Legacy.DidPlayerWin | pages/index.js:134-136 | the older win guard agrees with the typed one |
| Legacy.DidPlayerLose | pages/index.js:137-139 | the older lose guard is defined exactly when the moves are, and then agrees with the typed one |
| Legacy.CanSelectValue | pages/index.js:140-142 | the older select guard is defined exactly when the moves are, and then is membership in some move |
| Legacy.CanSubmit | pages/index.js:143-147 | the older submit guard fails only for a non-empty selection with an undefined roll, and otherwise is a non-empty selection with equal sums |
| Legacy.InitialSpec | pages/index.js:9-14 | the older page starts in `waiting` with tiles 1..10, the roll emptied and the moves still undefined, and this matches the typed start |
| Legacy.StepSimulates | pages/index.js:16-86 | from a machine matching a reachable typed one, no event makes the older machine throw, and the result matches the typed machine's result |
| Legacy.WaitingSimulates | pages/index.js:35-46 | the `waiting` case of the simulation, including the roll and the move computation |
| Legacy.DecidingSimulates | pages/index.js:48-63 | the `deciding` case of the simulation: select, deselect and submit guards never throw there |
| Legacy.Settle | pages/index.js:40-49 | the older `always` guards throw exactly in `deciding` while the moves are undefined |
| Legacy.Transition | pages/index.js:16-86 | the older transition throws exactly in `deciding`, on a select while the moves are undefined or on a submit of a non-empty selection while the roll is undefined |
| Legacy.LegalChoices | pages/index.js:188-204 | the older legal-choice set throws exactly in `deciding` while the moves are undefined, and is otherwise the typed page's set over the moves read as `[]` |
| Legacy.LegalChoicesAgree | pages/index.js:188-204 | the older page's legal-choice set is defined on every reachable machine and equals the typed page's |

## Left out

- Randomness: `rollDie` draws from `Math.random`. Die values are event parameters of type `Die` (1..6) instead.
- Timing: the real 1000 ms timer is the event `DelayElapsed`, which only `rolling` accepts. Cancelling the timer when `rolling` is left is the fact that the event is ignored everywhere else.
- Presentation and tooling: React rendering, `Tile`, `ThreeDimensionalButton`, `Head`, the `@xstate/inspect` hook and the `useMachine` hook wrapper with its action dispatchers. These draw the state or send events. They take no part in the rules.
- Library internals: xstate and Immer. Entry, transition and `always` semantics are written out in `Game.Transition` and `Game.Settle`.
- `lib/sum`, `lib/constants` and `lib/rollDie` are not part of this model. `sum` follows the older page's definition, and the tiles are 1..10 as in its `allChoices`.
- The older page's `difference` (pages/index.js:122-128) has the same text as `lib/difference.ts`. `Difference.Difference` models both. The legal-choice sets use Dafny's set difference, which `Difference.Difference` is proved to compute.
- Numbers: JavaScript numbers are doubles. Every value here is a small integer, so `int` is exact and no rounding is modelled.
- Mutation: Dafny sets and sequences are values. That neither input of `difference` is changed holds by construction and is not a stated contract.
- lib/rollDie.test.ts: its loop body never runs, so it states nothing.
- Duplicate selections: the source does not say whether selecting an already-selected value should be refused. The model keeps the code's behaviour, appending a duplicate, and only records the consequence.

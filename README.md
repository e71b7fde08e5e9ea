# Sand-sort puzzle engine

A Dafny model of the puzzle engine of a "sand sort" game, `SandSortGame` in
`core/game.js`. A board is a list of bottles. Each bottle is a stack of
colour units whose last element is the top. The engine has four operations:

- `generateLevel` builds a shuffled level.
- `pour` moves the top run of one bottle onto another and returns a move log.
- `undo` pops the last log off the history and moves its units back.
- `isWin` tests whether every bottle is empty, or full and of one colour.

The model has three modules:

- `Bottles` (`bottles.dfy`) holds the vocabulary.
  - A colour is an index below the palette size 14.
  - A bottle is a `seq<Color>`.
  - `RunOf` is the same-coloured run on top of a bottle.
  - `Units(bs)` is the multiset of all units on a board, so `Units(bs)[c]` counts colour c.
- `Rules` (`rules.dfy`) gives the semantics as pure functions on boards (`seq<Bottle>`), with the lemmas about them.
  - `Transfer` is n rounds of one `pop` from a bottle followed by one `push` onto another. It is the loop that both pour and undo run.
  - `PourLog` and `AfterPour` are what pour returns and the board it leaves. `Revert` is undo.
  - `IsWin` is the win test.
  - `Play` is a session of pours whose logs go onto a history, as the game's page drives it.
- `SandSortGame` (`game.dfy`) models the imperative code in the source's own form.
  - The board is an `array<Bottle>` whose entries `Pour` and `Undo` update in place.
  - The history is the class `MoveHistory`.
  - `GenerateLevel` pushes the balls colour by colour onto a sequence and copies it into an array, Fisher-Yates shuffles that array in place, and deals it into a fresh array of bottles.
  - `Pour` and `Undo` give their result and new board as `Rules.PourLog`, `Rules.AfterPour` and `Rules.Revert` of the old board. The properties are proved about those functions.
  - The generation methods state their properties directly, through slices, multisets, `Bottles.Units` and `Bottles.Fits`.

Some facts about the code that shape the model:

- `generateLevel` always adds exactly two empty buffer bottles.
- It shuffles and deals, and it can return a level that is already won.
- Popping and pushing one unit at a time reverses the moved units (`Rules.TransferMoves`). This cannot be seen on the board, because a pour moves units of a single colour (`Rules.PourMovesTopRun`).

Pour and undo act on one shared board. A pour of a bottle onto itself therefore pops a unit and pushes it straight back. `Transfer` models this: with `src == dst` it leaves the board unchanged.

## Model

| member | source | states |
|---|---|---|
| Rules.IsWin | core/game.js:58-65 | the board is won iff every bottle is empty, or holds exactly `capacity` units all equal to its first |
| Rules.AllLike | core/game.js:62-63 | true iff every unit of the bottle equals `first` |
| Bottles.RunOf | core/game.js:91-95 | the counted run has length at most the bottle's; its units are all of the colour; the unit just below it, if any, is of another colour (it is maximal) |
| Bottles.RunOfDrop | core/game.js:105-107 | popping m units off the top run shortens that run by exactly m |
| Rules.Step | core/game.js:106-107 | one pop of the source and push onto the destination keeps the number of bottles; between distinct bottles the source loses its top unit and the destination gains it on top; on the same bottle nothing changes; no other bottle changes |
| Rules.Transfer | core/game.js:105-108 | n pop/push rounds keep the number of bottles, change the source and destination lengths by -n and +n, leave every other bottle as it was, and change nothing when source and destination coincide |
| Rules.TransferMoves | core/game.js:105-108 | between two distinct bottles, n rounds pop exactly the top n units off the source and push them onto the destination in reverse order |
| Rules.TransferRoundTrip | core/game.js:105-108 | moving n units back the other way restores the whole board, whatever colours the units have |
| Rules.RoundTripSrc | core/game.js:124-127 | after a transfer and the reverse transfer, the source bottle is as before |
| Rules.RoundTripDst | core/game.js:124-127 | after a transfer and the reverse transfer, the destination bottle is as before |
| Rules.TransferConserves | core/game.js:105-108 | the pop/push loop neither creates nor destroys units: every colour keeps its count on the board |
| Rules.Refused | core/game.js:71-76 | the three guards of pour: empty source, destination holding `capacity` units, or a non-empty destination whose top differs from the source's top (pour refuses exactly on these, `Rules.PourRefusedIff`) |
| Rules.ActualMove | core/game.js:98-101 | the amount is the smaller of the source's top run and the room left in the destination, and at least one when the destination is below capacity |
| Rules.PourLog | core/game.js:83-111 | a successful pour logs the indices it was given and at most as many units as the source held |
| Rules.AfterPour | core/game.js:67-112 | pour's effect on the board keeps the number of bottles, leaves the board as it was when pour refuses, and never changes a bottle other than the two it was given |
| Rules.PourRefusedIff | core/game.js:71-76 | pour returns no log iff the source is empty, the destination holds `capacity` units, or the destination is non-empty with a top differing from the source's top; the `actualMove === 0` guard at line 103 never fires |
| Rules.PourAmount | core/game.js:91-109 | a successful pour onto a bottle within capacity moves min(top run, space) units, at least one; the source shrinks and the destination grows by that amount; the destination stays within capacity |
| Rules.PourMovesTopRun | core/game.js:98-109 | the moved units are the source's former top units, all of the source's top colour; `added` is exactly them; the source loses them, the destination gains them on top, and the rest of the run stays on the source |
| Rules.PourInvariants | core/game.js:105-108 | a pour touches only its two bottles, conserves every colour's count, keeps a board whose bottles are all within capacity that way, and a self-pour changes nothing |
| Rules.Revert | core/game.js:114-129 | undo's effect on the board keeps the number of bottles; between distinct bottles the `to` bottle loses and the `from` bottle gains as many units as the log's `added` holds; no other bottle changes |
| Rules.UndoInvertsPour | core/game.js:123-127 | the log a successful pour returns can be undone on the board it leaves, and undoing it restores every bottle element for element |
| Rules.PourKeepsWin | core/game.js:58-65 | on a won board every successful pour goes between two distinct bottles, from a full one into an empty one; the source is left empty, the destination holds exactly the source's former units, and the board stays won |
| Rules.Play | web/main.js:242-245 | a session of pours keeps the number of bottles, records at most one log per request, and every recorded log names bottles on the board; its body pours each request and pushes the log only of a pour that succeeds |
| Rules.UndoAll | core/game.js:114-129 | undoing every entry of a history, last first, keeps the number of bottles and the count of every colour |
| Rules.UndoAllRestores | core/game.js:114-129 | after any session, undoing the whole history last-first is always possible and gives back the starting board |
| Rules.PlayInvariants | core/game.js:105-108 | every board a session reaches holds the same units as the start, and no bottle ever goes over capacity |
| SandSortGame.Pour | core/game.js:67-112 | returns no log and changes nothing exactly on the three guards; otherwise it counts the top run with a loop, moves the units one pop/push at a time and returns the log; the new board is `AfterPour` of the old |
| SandSortGame.Undo | core/game.js:114-129 | with an empty history returns false and changes nothing; otherwise returns true, removes exactly the last entry, and moves its units back (`Revert`) |
| SandSortGame.MoveHistory.Push | web/main.js:245 | appends the log to the history |
| SandSortGame.PourThenUndo | web/main.js:242-245 | a successful pour whose log is pushed, followed by undo, leaves the bottles and the history as they were |
| SandSortGame.Shuffle | core/game.js:30-33 | the swap loop permutes the balls: their multiset is unchanged, for every choice of the random index |
| SandSortGame.MakeBalls | core/game.js:21-27 | there are colorCount * 4 balls, 4 of each of the first colorCount colours and none of any other |
| SandSortGame.FillBottle | core/game.js:41-45 | pushes the next 4 balls, or as many as are left, onto one bottle and advances the cursor past them; no other bottle changes |
| SandSortGame.Deal | core/game.js:35-46 | the first totalBottles - 2 bottles hold 4 units each, the last two are empty, and together they hold exactly the dealt balls |
| SandSortGame.GenerateLevel | core/game.js:10-56 | colorCount = min(3 + (level - 1) / 5, 14), totalBottles = colorCount + 2, capacity 4, empty history; the first colorCount bottles are full and the two buffers empty; each of the first colorCount colours occurs exactly 4 times, no other colour occurs, and no bottle is over capacity |

## Left out

- `Math.random` (core/game.js:31) is not modelled. The swap index is any `j` with `0 <= j <= i`, so `Shuffle` is proved for every sequence of draws.
- The palette's colour strings (core/game.js:4-8) are rendering data. Colours are the indices 0 to 13, and only the palette length 14 is kept. The comment at core/game.js:12 speaks of a cap of 12, but the code clamps to the palette length, and the model follows the code.
- `SandSortGame.GenerateLevel` requires `level >= 1`, the only levels the page passes: it starts at level 1 (web/main.js:6) and only increments it (web/main.js:268). Levels 0 to -4 would give two colours. Levels -5 to -9 would give one full bottle, a level already won. Levels -10 to -14 would give two empty bottles. From -15 to -24 a negative colour count slices the palette from its end and nothing is dealt. Only from level -25 down does `Array(totalBottles)` throw on a negative length.
- `SandSortGame.Pour` requires both indices to be within the board. The source does not check them and would fail on a missing bottle.
- `SandSortGame.Undo` requires that the last log's indices lie within the board and that its `to` bottle holds at least `|added|` units. Logs pushed after pours on the same board always satisfy this (`Rules.UndoAllRestores`). A log from elsewhere can break these conditions in three ways:
  - If its `to` bottle holds fewer units than `added`, the source would pop `undefined` and push it.
  - If an index is off the board and `added` is non-empty, the source's `pop`/`push` (core/game.js:125-126) throw a TypeError after `history.pop()` (core/game.js:116) has already removed the entry.
  - If an index is off the board and `added` is empty, the source returns true and touches no bottle. The model does not cover this case.
- A destination already over capacity is modelled as written. There `actualMove` is negative, the line-103 guard does not fire, and pour "succeeds" with an empty log and no change. Pours never produce such a board: generated levels fit (`SandSortGame.GenerateLevel`) and any sequence of pours keeps them fitting (`Rules.PlayInvariants`). An undo of a session's last pour returns to the board before that pour (`Rules.UndoInvertsPour`), which fits. Sessions that interleave pours and undos freely, as the page allows, are not modelled as a whole.
- Self-pours (`fromIdx == toIdx`) are not excluded, because the engine does not exclude them (the page does, at web/main.js:238). On a non-empty, non-full bottle such a pour succeeds and leaves the board unchanged (`Rules.PourInvariants`).
- The page in web/main.js (drawing, layout, buttons, selection state) is not part of this model, apart from its pattern of pushing each successful pour's log onto the history (`Rules.Play`).
- A generated level may already be won, since nothing in the source prevents it. The model does not claim otherwise. No solvability check or hint solver exists in the source, so none is modelled.
- `SandSortGame.GenerateLevel` returns the level's bottles as a value. The source returns its freshly built array, which nothing else aliases.

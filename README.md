# Style-transfer guessing game: round lifecycle

This project models the game logic of the `Game` React component in
`src/components/Game/Game.js`. Each round shows a stylized image and four
option images: its content image, its style image and two decoys, in shuffled
order. The player picks two images. The pair is correct when it holds both the
content image and the style image, in either order.

A correct pair shows the success message and enables "Next Round". A wrong pair
shows the retry message and schedules a reset, which clears the selection and
the message one second later. The "Show Me How" overlay plays the entry's
process frames one by one, stops at the last frame, and can be replayed.

Modules:

- `Random`: `Math.random()` as a draw r in [0, 2^53) that stands for r / 2^53, and
  `Math.floor(Math.random() * n)` as `RandomIndex`.
- `Shuffler`: the in-place Fisher–Yates `shuffle`. The method `Shuffle` works
  on an `array` and is proved equal to the function `Shuffled`. `Shuffled` is
  the list of swaps (`SwapPlan`) applied in order (`ApplySwaps`), and it is
  proved to be a permutation.
- `Catalog`: the decoded catalog. It is a sequence of (key, entry) items in
  `Object.keys` order. An entry holds its four options and its list of frame
  lists. `DrawItem` is the random choice of a key.
- `Guess`: the correctness test of `checkGuess` and facts about it.
- `Game`: the class `Game`, whose fields are the component's state variables.
  Its methods are the handlers:
  - `FetchData`: round initialisation once the catalog has arrived.
  - `HandleImageClick`, `CheckGuess` and `ResetBorders`.
  - `OnResetTimeout`: the one-second timer callback.
  - `HandleNextRound`.
  - `Valid()` is the invariant that every reachable state keeps. It says:
    - picks are distinct;
    - the message, the "Next Round" button and the pending reset agree with
      the first two picks;
    - the four options are the drawn entry's options in some order;
    - the truth pair and the frames are those of the drawn entry.
- `Visualization`: the player state of `ProcessVisualization`, as the class
  `Player` with its interval tick and "Replay Process" handler, plus the
  functions `Tick` and `Run` and lemmas about a whole run of ticks.

The environment is given as parameters:

- the decoded catalog, or `None` when fetching or parsing failed;
- the results of `Math.random`, as a sequence of draws;
- the expiry of the wrong-pair timer and each tick of the player's interval,
  as method calls.

React applies the setters of one handler together, so a handler is modelled as
one method that leaves the fields in their final state.

## Model

| member | source | states |
|---|---|---|
| Random.RandomIndex | src/components/Game/Game.js:90 | `Math.floor(Math.random() * n)` is an index below n for every positive n (and 0 when n is 0) |
| Random.RandomIndexIsFloor | src/components/Game/Game.js:117 | the drawn index j is the floor of the scaled draw: j ≤ (r/2^53)·n < j + 1 |
| Shuffler.Swap | src/components/Game/Game.js:118 | exchanging two elements keeps the length and the multiset of elements |
| Shuffler.SwapPlan | src/components/Game/Game.js:116-117 | the loop takes n − 1 steps; step k swaps position n − 1 − k with a position j ≤ n − 1 − k chosen by the k-th draw over n − k positions |
| Shuffler.ApplySwaps | src/components/Game/Game.js:118 | applying any prefix of the swap list keeps the length and the multiset |
| Shuffler.ShuffledIsPermutation | src/components/Game/Game.js:115-121 | the shuffled list has the same length, the same multiset and the same members as the input |
| Shuffler.SwapInPlace | src/components/Game/Game.js:118 | the destructuring assignment leaves the array equal to the old contents with positions i and j exchanged |
| Shuffler.Shuffle | src/components/Game/Game.js:115-121 | the array is shuffled in place, so its new contents are the planned swaps applied to its old contents, and the same array is returned |
| Catalog.DrawItem | src/components/Game/Game.js:89-93 | an entry is drawn exactly when the catalog is non-empty; it is the item at the drawn index and so belongs to the catalog |
| Guess.VerdictIgnoresOrder | src/components/Game/Game.js:135-136 | two guesses with the same picks in any order get the same verdict |
| Guess.CorrectIffUnorderedTruth | src/components/Game/Game.js:135-136 | with two different picks, a guess is correct if and only if the set of picks equals {content, style} |
| Guess.DecoyPairIsIncorrect | src/components/Game/Game.js:135-136 | for distinct options, a pair that includes a decoy is never correct |
| Game.NoDuplicatesAt | src/components/Game/Game.js:124 | in a duplicate-free selection, two different positions hold different images |
| Game.AppendFreshKeepsNoDuplicates | src/components/Game/Game.js:124-127 | appending an image that is not yet selected keeps the selection duplicate-free |
| Game.PermutationKeepsNoDuplicates | src/components/Game/Game.js:99 | any reordering of a duplicate-free list is duplicate-free |
| Game.PermutedOptionsHoldEachOnce | src/components/Game/Game.js:94-99 | for distinct options, any ordering of the four options has length 4, no repeats, exactly the entry's options as members, and the content and style image once each |
| Game.RoundOptionsHoldEachOptionOnce | src/components/Game/Game.js:94-99 | the shuffled options of a round have the same four properties |
| Game.ShuffleOptions | src/components/Game/Game.js:99 | shuffling the fresh array `[content, style, decoy1, decoy2]` yields the round's option order, which is an ordering of the entry's four options |
| Game.StartedRoundIsValid | src/components/Game/Game.js:96-104 | the state that round initialisation leaves, with no reset pending, satisfies the invariant whatever the state before |
| Game.ShownRoundIsWinnable | src/components/Game/Game.js:94-99 | once a round is shown, the content and the style image are both among the shuffled options the player can click |
| Game.ClickKeepsAgreement | src/components/Game/Game.js:123-148 | a click on a new option keeps the selection distinct and the message, button and pending reset in agreement with the first two picks |
| Game.Game.constructor | src/components/Game/Game.js:74-82 | the initial state: empty strings and lists, no message, "Next Round" disabled, no round yet; it satisfies the invariant |
| Game.Game.FetchData | src/components/Game/Game.js:84-109 | a failed load or an empty catalog changes nothing; otherwise the round shows the entry under the drawn key, the truth pair from its options, its options in shuffled order, its first frame list, an empty selection, no message and "Next Round" disabled; the invariant is kept |
| Game.Game.StartRound | src/components/Game/Game.js:96-104 | the setters of round initialisation leave exactly the new round's state, and the pending reset count is not touched |
| Game.Game.ResetBorders | src/components/Game/Game.js:183-184 | the selection and the message are cleared, and nothing else changes |
| Game.Game.CheckGuess | src/components/Game/Game.js:134-149 | a correct pair sets the success message and enables "Next Round"; a wrong pair sets the retry message, schedules one reset and leaves "Next Round" as it was; the selection and the round are untouched |
| Game.Game.HandleImageClick | src/components/Game/Game.js:123-132 | a repeated pick changes no state at all; a new pick is appended after the earlier ones; the pair is evaluated exactly when the selection has just reached two; a third pick changes nothing else; the invariant is kept |
| Game.Game.OnResetTimeout | src/components/Game/Game.js:147 | the reset after a wrong pair clears the selection and the message, leaves "Next Round" disabled and changes nothing else; the invariant is kept |
| Game.Game.HandleNextRound | src/components/Game/Game.js:159-161 | while the button is disabled a click does nothing; once it is enabled, a click starts a new round exactly as `FetchData` does |
| Game.WrongPairIsReset | src/components/Game/Game.js:123-148 | from a clear board, a repeated pick counts once, a pair with a decoy is wrong, and its reset leaves a clear board with "Next Round" still disabled |
| Game.RightPairEnablesNextRound | src/components/Game/Game.js:123-142 | from a clear board, picking style then content enables "Next Round" with the success message; a later third pick is appended and not evaluated |
| Visualization.Advance | src/components/Game/Game.js:14-20 | the updater keeps playing exactly when the index is not the last one; a tick that keeps playing moves exactly one frame on, a stopping tick keeps the index; an in-range index stays in range |
| Visualization.StoppedStays | src/components/Game/Game.js:11 | a stopped player has no interval, so no number of ticks changes it |
| Visualization.PlayingReachesLastFrame | src/components/Game/Game.js:10-24 | playing from frame i, k ticks show frame i + k until the last frame; from then on the player is stopped at the last frame |
| Visualization.ReplayPlaysEveryFrame | src/components/Game/Game.js:26-29 | after a replay, every frame is shown in order, the player stops at the last one, and the index never leaves [0, n − 1] |
| Visualization.EmptyFramesNeverStop | src/components/Game/Game.js:15 | with no frames the last index is −1, which the index never reaches, so the player never stops |
| Visualization.Player.constructor | src/components/Game/Game.js:7-8 | the overlay opens on frame 0, playing |
| Visualization.Player.OnInterval | src/components/Game/Game.js:13-21 | a tick while playing advances by one frame, or at the last frame keeps the index and stops; the state stays a frame index |
| Visualization.Player.HandleReplay | src/components/Game/Game.js:26-29 | replay sets the index to 0 and playing to true |

## Left out

- Fetching `image_relations.json` and parsing the JSON (Game.js lines 86-87) are
  network I/O. The decoded catalog is an input, and a failure to fetch or parse
  is `None`. The logging `catch` (lines 106-108) is modelled only as "state
  unchanged". The shape of a decoded entry is assumed: four options and a list
  of frame lists. Malformed JSON shapes are not modelled.
- An empty catalog makes the source throw while destructuring `undefined`. The
  `catch` swallows the error, so the model leaves the state unchanged.
- `Math.random` is a supplied draw. The model takes each value to be a multiple
  of 2^-53, and the product with n is computed exactly: floating-point rounding
  of `Math.random() * n` is not modelled. Neither is uniformity.
- `setTimeout` and `setInterval` scheduling and cleanup (lines 13-23, 147) are
  host timing. Their callbacks are the methods `OnResetTimeout` and
  `Player.OnInterval`. A reset that is still pending is one count in
  `pendingResets`.
- Game.Game.FetchData: requires that no reset is pending. Every caller meets
  this in the reachable states: the invariant gives no pending reset at mount
  and whenever "Next Round" is enabled. Because of this, a reset that fires
  after a new round has started is not modelled.
- The asynchronous gap between clicking "Next Round" and the catalog arriving,
  and two requests that overlap, are not modelled. A round starts in one
  `FetchData` call.
- React's re-rendering between events is not modelled: every event sees the
  state that the previous event left.
- DOM class manipulation in `highlightImages`, `shakeImages` and the class
  removal of `resetBorders` (lines 163-181) is purely visual.
- `triggerConfetti` (lines 187-194) calls a foreign library for a cosmetic effect.
- JSX rendering (lines 31-70, 196-250) and the overlay's show and close toggles
  (lines 151-157) are UI.
- `src/OptionImage.js`, `src/StylizedImage.js` and `src/components/App/App.js`
  are pure UI or a wrapper, and are not part of this model.
- Catalog.FirstFrames: `processImages[0]` of an empty list is undefined, written
  None; it has no contract of its own.
- The message is one of three values. Their texts are given by `MessageText`,
  which has no contract of its own.
- Game.Game.Valid: before the first round it requires only that there are no
  options. The initial empty strings are stated by the constructor instead.
- `Game.js` has no countdown timer, no scoring and no timeout phase; none is
  modelled.

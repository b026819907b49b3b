# Snake game: the game-state machine

This project models the rules of a browser snake game in Dafny. Only the state machine is modelled, as implemented in `script.js`:

- the board is 400×400 pixels, divided into cells of 20 pixels;
- the snake is a list of cells, head first;
- an arrow key buffers the next heading, and a key that reverses the applied heading is refused;
- every timer tick runs `gameStep`. It applies the buffered heading and moves the head one cell. It ends the game on a wall or on any cell of the body before the move, the tail included. Otherwise it either eats the food and grows, or moves on and drops the tail;
- after each point the tick period is `max(40, 100 - floor(score / 3) * 8)` milliseconds;
- `startGame` resets everything to one cell at (180, 200), heading right, score 0, period 100.

Files:

- `grid.dfy`, module `Grid`: cells, headings, one-cell moves, the wall test, and the range of food placement.
- `snake.dfy`, module `Snake`:
  - the speed ramp `MoveInterval`;
  - the key rule `Steer`;
  - the scan `Collision`;
  - the class `Game`. Its fields are the module-level variables that `gameStep`, the key handler and `startGame` update: `snake`, `direction`, `nextDirection`, `food`, `score` and `moveInterval`. The field `running` says whether the step timer is armed.
- `scenarios.dfy`, module `Scenarios`: concrete games played through `Game`'s methods.

`Game.Valid()` is the invariant that every method keeps. It states that:

- the body has exactly `score + 1` cells;
- body cells are distinct, aligned board cells, and so is the food;
- `moveInterval` is always `MoveInterval(score)`;
- the buffered heading never reverses the applied one;
- while the game runs, the head is one move from the neck. So the snake can never turn back onto its neck.

Randomness is a parameter. A step that eats, and `startGame`, take the next food cell as an argument that must be a board cell. `Grid.FoodCell` together with its two lemmas shows that the board cells are exactly the cells `randomFood` can return, one per pair of draws.

Two points where the model follows the code rather than a looser reading of the game's rules:

- On game over the applied heading has already changed. `direction := nextDirection` runs before the wall and body tests (script.js:163), so not all state is left untouched.
- Moving into the cell the tail is about to leave ends the game. The body test uses the body before the tail is dropped. `Scenarios.TailChaseEndsGame` shows this on a four-cell snake.

## Model

| member | source | states |
|---|---|---|
| `Grid.Opposite` | script.js:231-236 | The reversed heading is a different heading on the same axis: Left/Right and Up/Down are the pairs the key handler refuses. |
| `Grid.OppositeIsInvolution` | script.js:231-236 | Reversing twice gives back the original heading. |
| `Grid.Move` | script.js:164-167 | The new head differs from the old head by exactly one cell size along the heading's axis. The other coordinate is unchanged. Left and Up decrease a coordinate; Right and Down increase one. |
| `Grid.MoveBackIffOpposite` | script.js:164-167 | A move followed by a second move returns to the start exactly when the second heading is the reverse of the first. |
| `Grid.MoveStaysAligned` | script.js:164-174 | A move from a board cell that passes the wall test lands on a board cell. |
| `Grid.FoodCell` | script.js:73-78 | Each pair of draws in [0, 20) gives an aligned cell inside the canvas. |
| `Grid.FoodCellInjective` | script.js:73-78 | Different pairs of draws give different food cells. |
| `Grid.FoodCellCoversGrid` | script.js:73-78 | Every aligned cell inside the canvas is the food cell of some pair of draws, so food ranges over exactly the board cells. |
| `Snake.MoveInterval` | script.js:191 | The tick period is always between 40 and 100, and it is 100 for scores below 3. |
| `Snake.MoveIntervalAntitone` | script.js:190-191 | A higher score never gives a longer tick period. |
| `Snake.MoveIntervalFloor` | script.js:191 | The period is 40, the minimum, exactly when the score is at least 24. |
| `Snake.MoveIntervalChangesAt` | script.js:190-196 | Gaining a point changes the period exactly when the new score is a multiple of 3 and at most 24, and a change is always a decrease. This is when the timer gets re-armed. |
| `Snake.Steer` | script.js:231-236 | After a key press the buffered heading is either unchanged or the heading of the pressed arrow key, and never the reverse of the applied heading. Any arrow key that does not reverse the applied heading is taken. |
| `Snake.SteerNeverReverses` | script.js:231-236 | A key press cannot make the buffered heading the reverse of the applied heading. |
| `Snake.Collision` | script.js:205-212 | The scan reports a hit exactly when the cell is one of the body's cells. |
| `Snake.PushFrontKeepsBody` | script.js:197-201 | Pushing a new board cell that is not in the body in front of the body keeps the cells distinct board cells, whether or not the tail was popped first. |
| `Snake.NeckIsNeverHit` | script.js:161-174 | When the head is one move from the neck and the next heading does not reverse that move, the new head is not the neck. |
| `Snake.Game.constructor` | script.js:5-15 | Loading the game ends in the state `StartGame` sets up, and the invariant holds. |
| `Snake.Game.StartGame` | script.js:238-249 | Body `[(180,200)]`, both headings Right, score 0, period 100, the given food, and the timer armed. The invariant holds. |
| `Snake.Game.KeyDown` | script.js:231-236 | Only the buffered heading changes, to `Steer` of the key. It never becomes the reverse of the applied heading, and the invariant is kept. |
| `Snake.Game.Step` | script.js:161-203 | The applied heading becomes the buffered one. The game ends exactly when the moved head is off the canvas or on a cell of the body before the move, tail included; then body, food, score and period are unchanged and the timer stops. If the head lands on the food, the body becomes the new head followed by the whole old body, the score rises by 1, the food is the given new cell, and the period becomes `MoveInterval(score)`. The speed-change flag is set exactly when the score reaches a multiple of 3 that is at most 24. Otherwise the body becomes the new head followed by the old body minus its last cell, and score, food and period are unchanged. A running snake never moves onto its neck, and the invariant (length = score + 1, distinct aligned cells, period = `MoveInterval(score)`, no buffered reversal) is kept. |
| `Scenarios.EatRightAfterStart` | script.js:183-201 | From the start with food at (200,200), one tick eats: the body is `[(200,200),(180,200)]`, the score is 1, and the speed is unchanged. |
| `Scenarios.MoveLeftDropsTail` | script.js:197-201 | A body `[(100,100),(120,100),(140,100)]` heading left becomes `[(80,100),(100,100),(120,100)]`. |
| `Scenarios.ReverseKeyIsIgnored` | script.js:231-236 | Pressing ArrowLeft while heading right is ignored, and the next tick moves the head right to (200,200). |
| `Scenarios.TailChaseEndsGame` | script.js:170-174 | After three meals, the third of which speeds the game up, turning up, left and down moves the head into the cell the tail would leave. That tick is game over. |

## Left out

- Particle effects (`spawnParticles`, `updateParticles`, `drawParticles`, script.js:36-71): floating-point visual effects that never touch the game state.
- Rendering (`render`, `drawSnake`, `lerp`, script.js:80-159): canvas drawing and the floating-point interpolation of the head; presentation only.
- Timers: `setInterval`, `clearInterval`, `requestAnimationFrame` and `performance.now` are host scheduling. Whether the step timer is armed appears as `running`. Re-arming it on a speed change appears as the `speedChanged` flag of `Ate` and the new `moveInterval`. `lastMoveTime` only feeds rendering.
- Randomness: `Math.random` in `randomFood` is replaced by the food cell passed to `Step` and `StartGame`, or the pair of draws passed to `FoodCell`.
- The food drawn at module load (script.js:7) is replaced by the one `startGame` draws before anything reads it (script.js:242, 253). The constructor therefore takes only the second draw.
- Audio (background music, eat and game-over sounds), the DOM (score text, screen switching, `showGameOver`, the restart button) and the high score kept in `localStorage`: I/O. The high score is read as a string and compared by loose coercion, so it is not an integer rule of the game.
- `Step` may be called when `running` is false, and it then behaves the same as while running. In the program the timer never calls `gameStep` once it has been cleared. The neck property is stated only for running games, because after a game over the applied heading no longer matches the body.
